/** A reader for the text that `toXML()` produces. It is not part of the
    program; it is the partner of the serialisation: reading the serialisation
    back gives every field of the pull request, with the free-text fields
    unescaped once, and comments and files in their original order. */
module PullRequestReader {
  import opened Common
  import opened PullRequests

  datatype CommentView = CommentView(author: string, createdAt: string, body: string)

  datatype FileView = FileView(
    filename: string, status: string, additions: nat, deletions: nat, patch: string)

  /** What the serialisation carries: a missing description or patch is empty. */
  datatype PullRequestView = PullRequestView(
    number: nat, title: string, author: string, description: string,
    comments: seq<CommentView>, files: seq<FileView>)

  function CommentViewOf(c: Comment): CommentView {
    CommentView(c.user.login, c.createdAt, c.body)
  }

  function FileViewOf(f: FileChange): FileView {
    FileView(f.filename, f.status, f.additions, f.deletions, OrEmpty(f.patch))
  }

  function CommentViews(cs: seq<Comment>): seq<CommentView> {
    seq(|cs|, i requires 0 <= i < |cs| => CommentViewOf(cs[i]))
  }

  function FileViews(fs: seq<FileChange>): seq<FileView> {
    seq(|fs|, i requires 0 <= i < |fs| => FileViewOf(fs[i]))
  }

  function ViewOf(pr: PullRequest): PullRequestView {
    PullRequestView(
      pr.number, pr.title, pr.author, OrEmpty(pr.description),
      CommentViews(pr.comments), FileViews(pr.files))
  }

  /** The values inserted without escaping hold no `<`, so that the next tag
      still marks where they end. */
  predicate RawFieldsPlain(pr: PullRequest) {
    && '<' !in pr.author
    && (forall i :: 0 <= i < |pr.comments| ==>
          '<' !in pr.comments[i].user.login && '<' !in pr.comments[i].createdAt)
    && (forall i :: 0 <= i < |pr.files| ==>
          '<' !in pr.files[i].filename && '<' !in pr.files[i].status)
  }

  // ---------------------------------------------------------------------------
  // Reading primitives

  /** Consumes the literal `lit` at the front of t. */
  function Expect(lit: string, t: string): (r: Option<string>)
    ensures r.Some? ==> |r.value| == |t| - |lit|
  {
    if PrefixAt(lit, t, 0) then Some(t[|lit|..]) else None
  }

  /** The text up to the next `<` (or the end), and what follows. */
  function TakeText(t: string): (r: (string, string))
    ensures r.0 + r.1 == t
  {
    if t == [] || t[0] == '<' then ([], t)
    else
      var (a, b) := TakeText(t[1..]);
      ([t[0]] + a, b)
  }

  /** The decimal digits at the front of t, and what follows. */
  function TakeDigits(t: string): (r: (string, string))
    ensures r.0 + r.1 == t
    ensures forall i :: 0 <= i < |r.0| ==> IsDigit(r.0[i])
  {
    if t == [] || !IsDigit(t[0]) then ([], t)
    else
      var (a, b) := TakeDigits(t[1..]);
      ([t[0]] + a, b)
  }

  /** A literal followed by text. */
  function ReadText(open: string, t: string): (r: Option<(string, string)>)
    ensures r.Some? ==> |r.value.1| <= |t| - |open|
  {
    var t1 :- Expect(open, t);
    Some(TakeText(t1))
  }

  /** A literal followed by a decimal number. */
  function ReadNumber(open: string, t: string): (r: Option<(nat, string)>)
    ensures r.Some? ==> |r.value.1| < |t| - |open|
  {
    var t1 :- Expect(open, t);
    var (ds, rest) := TakeDigits(t1);
    if ds == [] then None else Some((ParseNat(ds), rest))
  }

  function ReadComment(t: string): (r: Option<(CommentView, string)>)
    ensures r.Some? ==> |r.value.1| < |t|
  {
    var author :- ReadText(CommentOpen, t);
    var createdAt :- ReadText(CommentAuthorClose, author.1);
    var body :- ReadText(CreatedAtClose, createdAt.1);
    var rest :- Expect(CommentClose, body.1);
    Some((CommentView(author.0, createdAt.0, UnescapeXML(body.0)), rest))
  }

  /** Comments separated by a newline, as `join('\n')` puts them. */
  function ReadComments(t: string): Option<(seq<CommentView>, string)>
    decreases |t|
  {
    if !PrefixAt(CommentOpen, t, 0) then Some(([], t))
    else
      var c :- ReadComment(t);
      if PrefixAt("\n" + CommentOpen, c.1, 0) then
        var more :- ReadComments(c.1[1..]);
        Some(([c.0] + more.0, more.1))
      else
        Some(([c.0], c.1))
  }

  function ReadFile(t: string): (r: Option<(FileView, string)>)
    ensures r.Some? ==> |r.value.1| < |t|
  {
    var filename :- ReadText(FileOpen, t);
    var status :- ReadText(FilenameClose, filename.1);
    var additions :- ReadNumber(StatusClose, status.1);
    var deletions :- ReadNumber(AdditionsClose, additions.1);
    var patch :- ReadText(DeletionsClose, deletions.1);
    var rest :- Expect(FileClose, patch.1);
    Some((FileView(filename.0, status.0, additions.0, deletions.0, UnescapeXML(patch.0)), rest))
  }

  function ReadFiles(t: string): Option<(seq<FileView>, string)>
    decreases |t|
  {
    if !PrefixAt(FileOpen, t, 0) then Some(([], t))
    else
      var f :- ReadFile(t);
      if PrefixAt("\n" + FileOpen, f.1, 0) then
        var more :- ReadFiles(f.1[1..]);
        Some(([f.0] + more.0, more.1))
      else
        Some(([f.0], f.1))
  }

  /** Reads a whole serialisation; None when the text does not have its shape. */
  function ReadPullRequest(t: string): Option<PullRequestView> {
    var number :- ReadNumber(Header, t);
    var title :- ReadText(NumberClose, number.1);
    var author :- ReadText(TitleClose, title.1);
    var description :- ReadText(AuthorClose, author.1);
    var t1 :- Expect(DescriptionClose, description.1);
    var comments :- ReadComments(t1);
    var t2 :- Expect(CommentsClose, comments.1);
    var files :- ReadFiles(t2);
    var t3 :- Expect(Footer, files.1);
    if t3 != [] then None
    else
      Some(PullRequestView(
        number.0, UnescapeXML(title.0), author.0, UnescapeXML(description.0),
        comments.0, files.0))
  }

  // ---------------------------------------------------------------------------
  // Reading what toXML wrote

  lemma ExpectLiteral(lit: string, rest: string)
    ensures Expect(lit, lit + rest) == Some(rest)
  {
    assert (lit + rest)[..|lit|] == lit;
    assert (lit + rest)[|lit|..] == rest;
  }

  /** A tag-free value is read up to the next tag. */
  lemma {:induction false} TakeTextOf(v: string, rest: string)
    requires '<' !in v
    requires rest == [] || rest[0] == '<'
    ensures TakeText(v + rest) == (v, rest)
  {
    if v == [] {
      assert v + rest == rest;
    } else {
      assert (v + rest)[0] == v[0] && v[0] != '<';
      assert (v + rest)[1..] == v[1..] + rest;
      TakeTextOf(v[1..], rest);
      assert [v[0]] + v[1..] == v;
    }
  }

  lemma {:induction false} TakeDigitsOf(v: string, rest: string)
    requires forall i :: 0 <= i < |v| ==> IsDigit(v[i])
    requires rest == [] || !IsDigit(rest[0])
    ensures TakeDigits(v + rest) == (v, rest)
  {
    if v == [] {
      assert v + rest == rest;
    } else {
      assert (v + rest)[0] == v[0];
      assert (v + rest)[1..] == v[1..] + rest;
      TakeDigitsOf(v[1..], rest);
      assert [v[0]] + v[1..] == v;
    }
  }

  lemma ReadTextOf(open: string, v: string, rest: string)
    requires '<' !in v
    requires rest == [] || rest[0] == '<'
    ensures ReadText(open, open + v + rest) == Some((v, rest))
  {
    assert open + v + rest == open + (v + rest);
    ExpectLiteral(open, v + rest);
    TakeTextOf(v, rest);
  }

  lemma ReadNumberOf(open: string, n: nat, rest: string)
    requires rest == [] || !IsDigit(rest[0])
    ensures ReadNumber(open, open + NatToString(n) + rest) == Some((n, rest))
  {
    var ds := NatToString(n);
    Assoc(open, ds, rest);
    ExpectLiteral(open, ds + rest);
    TakeDigitsOf(ds, rest);
    ParseNatToString(n);
    ReadNumberStep(open, open + ds + rest, ds, rest);
  }

  lemma ReadNumberStep(open: string, t: string, ds: string, rest: string)
    requires Expect(open, t) == Some(ds + rest)
    requires TakeDigits(ds + rest) == (ds, rest) && ds != []
    ensures ReadNumber(open, t) == Some((ParseNat(ds), rest))
  {
  }

  /** Escaped text never holds a `<`. */
  lemma EscapedIsTagFree(s: string)
    ensures '<' !in EscapeXML(s)
  {
    EscapeXMLWellEscaped(s);
  }

  /** Re-brackets a template followed by more text, field by field. */
  lemma Regroup(a: string, b: string, c: string, d: string, e: string, f: string, g: string,
                r: string)
    ensures a + b + c + d + e + f + g + r == a + b + (c + d + (e + f + (g + r)))
  {
  }

  lemma RegroupFile(a: string, b: string, c: string, d: string, e: string, f: string,
                    g: string, h: string, i: string, j: string, k: string, r: string)
    ensures a + b + c + d + e + f + g + h + i + j + k + r
         == a + b + (c + d + (e + f + (g + h + (i + j + (k + r)))))
  {
  }

  lemma ReadCommentOf(c: Comment, rest: string)
    requires '<' !in c.user.login && '<' !in c.createdAt
    ensures ReadComment(CommentXML(c) + rest) == Some((CommentViewOf(c), rest))
  {
    var body := EscapeXML(c.body);
    var r3 := CommentClose + rest;
    var r2 := CreatedAtClose + body + r3;
    var r1 := CommentAuthorClose + c.createdAt + r2;
    Regroup(CommentOpen, c.user.login, CommentAuthorClose, c.createdAt, CreatedAtClose, body,
            CommentClose, rest);
    ReadTextOf(CommentOpen, c.user.login, r1);
    ReadTextOf(CommentAuthorClose, c.createdAt, r2);
    EscapedIsTagFree(c.body);
    ReadTextOf(CreatedAtClose, body, r3);
    ExpectLiteral(CommentClose, rest);
    UnescapeEscape(c.body);
  }

  lemma ReadFileOf(f: FileChange, rest: string)
    requires '<' !in f.filename && '<' !in f.status
    ensures ReadFile(FileXML(f) + rest) == Some((FileViewOf(f), rest))
  {
    var patch := EscapeXML(OrEmpty(f.patch));
    var r5 := FileClose + rest;
    var r4 := DeletionsClose + patch + r5;
    var r3 := AdditionsClose + NatToString(f.deletions) + r4;
    var r2 := StatusClose + NatToString(f.additions) + r3;
    var r1 := FilenameClose + f.status + r2;
    RegroupFile(FileOpen, f.filename, FilenameClose, f.status, StatusClose,
                NatToString(f.additions), AdditionsClose, NatToString(f.deletions),
                DeletionsClose, patch, FileClose, rest);
    ReadTextOf(FileOpen, f.filename, r1);
    ReadTextOf(FilenameClose, f.status, r2);
    ReadNumberOf(StatusClose, f.additions, r3);
    ReadNumberOf(AdditionsClose, f.deletions, r4);
    EscapedIsTagFree(OrEmpty(f.patch));
    ReadTextOf(DeletionsClose, patch, r5);
    ExpectLiteral(FileClose, rest);
    UnescapeEscape(OrEmpty(f.patch));
  }

  /** What follows the first comment element in the joined list. */
  function CommentsTail(cs: seq<Comment>): string
    requires |cs| > 0
  {
    if |cs| == 1 then "" else "\n" + CommentsXML(cs[1..])
  }

  lemma CommentsXMLCons(cs: seq<Comment>)
    requires |cs| > 0
    ensures CommentsXML(cs) == CommentXML(cs[0]) + CommentsTail(cs)
  {
    if |cs| == 1 {
      CommentsXMLSingle(cs);
      assert CommentXML(cs[0]) + "" == CommentXML(cs[0]);
    } else {
      CommentsXMLMore(cs);
    }
  }

  lemma CommentsXMLSingle(cs: seq<Comment>)
    requires |cs| == 1
    ensures CommentsXML(cs) == CommentXML(cs[0])
  {
    JoinFirst(CommentElements(cs), "\n");
  }

  lemma CommentsXMLMore(cs: seq<Comment>)
    requires |cs| > 1
    ensures CommentsXML(cs) == CommentXML(cs[0]) + ("\n" + CommentsXML(cs[1..]))
  {
    JoinFirst(CommentElements(cs), "\n");
    CommentElementsTail(cs);
  }

  lemma CommentElementsTail(cs: seq<Comment>)
    requires |cs| > 0
    ensures CommentElements(cs)[0] == CommentXML(cs[0])
    ensures CommentElements(cs)[1..] == CommentElements(cs[1..])
  {
  }

  lemma StartsWithComment(c: Comment, r: string)
    ensures PrefixAt(CommentOpen, CommentXML(c) + r, 0)
  {
    Regroup(CommentOpen, c.user.login, CommentAuthorClose, c.createdAt, CreatedAtClose,
            EscapeXML(c.body), CommentClose, r);
    StartsWithLiteral(CommentOpen, c.user.login + (CommentAuthorClose + c.createdAt
      + (CreatedAtClose + EscapeXML(c.body) + (CommentClose + r))));
  }

  lemma StartsWithComments(cs: seq<Comment>, r: string)
    requires |cs| > 0
    ensures PrefixAt(CommentOpen, CommentsXML(cs) + r, 0)
  {
    CommentsXMLCons(cs);
    Assoc(CommentXML(cs[0]), CommentsTail(cs), r);
    StartsWithComment(cs[0], CommentsTail(cs) + r);
  }

  /** The raw fields of every element hold no `<`. */
  predicate CommentsPlain(cs: seq<Comment>) {
    forall i :: 0 <= i < |cs| ==> '<' !in cs[i].user.login && '<' !in cs[i].createdAt
  }

  lemma CommentsCons(cs: seq<Comment>)
    requires |cs| > 0
    ensures CommentViews(cs) == [CommentViewOf(cs[0])] + CommentViews(cs[1..])
    ensures CommentsPlain(cs) ==> '<' !in cs[0].user.login && '<' !in cs[0].createdAt && CommentsPlain(cs[1..])
  {
  }

  lemma ReadCommentsNone(r: string)
    requires !PrefixAt(CommentOpen, r, 0)
    ensures ReadComments(r) == Some(([], r))
  {
  }

  lemma ReadCommentsLast(t: string, v: CommentView, r: string)
    requires PrefixAt(CommentOpen, t, 0) && ReadComment(t) == Some((v, r))
    requires !PrefixAt("\n" + CommentOpen, r, 0)
    ensures ReadComments(t) == Some(([v], r))
  {
  }

  lemma ReadCommentsStep(t: string, v: CommentView, after: string, views: seq<CommentView>, r: string)
    requires PrefixAt(CommentOpen, t, 0) && ReadComment(t) == Some((v, after))
    requires PrefixAt("\n" + CommentOpen, after, 0) && ReadComments(after[1..]) == Some((views, r))
    ensures ReadComments(t) == Some(([v] + views, r))
  {
  }

  /** Comments are read back one element each, in order. */
  lemma {:induction false} ReadCommentsOf(cs: seq<Comment>, r: string)
    requires CommentsPlain(cs)
    requires !PrefixAt(CommentOpen, r, 0) && !PrefixAt("\n" + CommentOpen, r, 0)
    ensures ReadComments(CommentsXML(cs) + r) == Some((CommentViews(cs), r))
    decreases |cs|
  {
    if |cs| == 0 {
      assert CommentsXML(cs) + r == r;
      assert CommentViews(cs) == [];
      ReadCommentsNone(r);
    } else {
      var c, more := cs[0], cs[1..];
      CommentsCons(cs);
      var after := CommentsTail(cs) + r;
      CommentsXMLCons(cs);
      Assoc(CommentXML(c), CommentsTail(cs), r);
      StartsWithComment(c, after);
      ReadCommentOf(c, after);
      if |cs| == 1 {
        assert after == r;
        assert CommentViews(cs) == [CommentViewOf(c)];
        ReadCommentsLast(CommentXML(c) + after, CommentViewOf(c), r);
      } else {
        Assoc("\n", CommentsXML(more), r);
        assert after[1..] == CommentsXML(more) + r;
        StartsWithComments(more, r);
        PrefixAfterNewline(CommentOpen, CommentsXML(more) + r);
        ReadCommentsOf(more, r);
        ReadCommentsStep(CommentXML(c) + after, CommentViewOf(c), after, CommentViews(more), r);
      }
    }
  }

  function FilesTail(fs: seq<FileChange>): string
    requires |fs| > 0
  {
    if |fs| == 1 then "" else "\n" + FilesXML(fs[1..])
  }

  lemma FilesXMLCons(fs: seq<FileChange>)
    requires |fs| > 0
    ensures FilesXML(fs) == FileXML(fs[0]) + FilesTail(fs)
  {
    if |fs| == 1 {
      FilesXMLSingle(fs);
      assert FileXML(fs[0]) + "" == FileXML(fs[0]);
    } else {
      FilesXMLMore(fs);
    }
  }

  lemma FilesXMLSingle(fs: seq<FileChange>)
    requires |fs| == 1
    ensures FilesXML(fs) == FileXML(fs[0])
  {
    JoinFirst(FileElements(fs), "\n");
  }

  lemma FilesXMLMore(fs: seq<FileChange>)
    requires |fs| > 1
    ensures FilesXML(fs) == FileXML(fs[0]) + ("\n" + FilesXML(fs[1..]))
  {
    JoinFirst(FileElements(fs), "\n");
    FileElementsTail(fs);
  }

  lemma FileElementsTail(fs: seq<FileChange>)
    requires |fs| > 0
    ensures FileElements(fs)[0] == FileXML(fs[0])
    ensures FileElements(fs)[1..] == FileElements(fs[1..])
  {
  }

  lemma StartsWithFile(f: FileChange, r: string)
    ensures PrefixAt(FileOpen, FileXML(f) + r, 0)
  {
    var patch := EscapeXML(OrEmpty(f.patch));
    RegroupFile(FileOpen, f.filename, FilenameClose, f.status, StatusClose,
                NatToString(f.additions), AdditionsClose, NatToString(f.deletions),
                DeletionsClose, patch, FileClose, r);
    StartsWithLiteral(FileOpen, f.filename + (FilenameClose + f.status
      + (StatusClose + NatToString(f.additions) + (AdditionsClose + NatToString(f.deletions)
      + (DeletionsClose + patch + (FileClose + r))))));
  }

  lemma StartsWithLiteral(lit: string, rest: string)
    ensures PrefixAt(lit, lit + rest, 0)
  {
    assert (lit + rest)[..|lit|] == lit;
  }

  lemma StartsWithFiles(fs: seq<FileChange>, r: string)
    requires |fs| > 0
    ensures PrefixAt(FileOpen, FilesXML(fs) + r, 0)
  {
    FilesXMLCons(fs);
    Assoc(FileXML(fs[0]), FilesTail(fs), r);
    StartsWithFile(fs[0], FilesTail(fs) + r);
  }

  /** The raw fields of every element hold no `<`. */
  predicate FilesPlain(fs: seq<FileChange>) {
    forall i :: 0 <= i < |fs| ==> '<' !in fs[i].filename && '<' !in fs[i].status
  }

  lemma FilesCons(fs: seq<FileChange>)
    requires |fs| > 0
    ensures FileViews(fs) == [FileViewOf(fs[0])] + FileViews(fs[1..])
    ensures FilesPlain(fs) ==> '<' !in fs[0].filename && '<' !in fs[0].status && FilesPlain(fs[1..])
  {
  }

  lemma ReadFilesNone(r: string)
    requires !PrefixAt(FileOpen, r, 0)
    ensures ReadFiles(r) == Some(([], r))
  {
  }

  lemma ReadFilesLast(t: string, v: FileView, r: string)
    requires PrefixAt(FileOpen, t, 0) && ReadFile(t) == Some((v, r))
    requires !PrefixAt("\n" + FileOpen, r, 0)
    ensures ReadFiles(t) == Some(([v], r))
  {
  }

  lemma ReadFilesStep(t: string, v: FileView, after: string, views: seq<FileView>, r: string)
    requires PrefixAt(FileOpen, t, 0) && ReadFile(t) == Some((v, after))
    requires PrefixAt("\n" + FileOpen, after, 0) && ReadFiles(after[1..]) == Some((views, r))
    ensures ReadFiles(t) == Some(([v] + views, r))
  {
  }

  /** Files are read back one element each, in order. */
  lemma {:induction false} ReadFilesOf(fs: seq<FileChange>, r: string)
    requires FilesPlain(fs)
    requires !PrefixAt(FileOpen, r, 0) && !PrefixAt("\n" + FileOpen, r, 0)
    ensures ReadFiles(FilesXML(fs) + r) == Some((FileViews(fs), r))
    decreases |fs|
  {
    if |fs| == 0 {
      assert FilesXML(fs) + r == r;
      assert FileViews(fs) == [];
      ReadFilesNone(r);
    } else {
      var f, more := fs[0], fs[1..];
      FilesCons(fs);
      var after := FilesTail(fs) + r;
      FilesXMLCons(fs);
      Assoc(FileXML(f), FilesTail(fs), r);
      StartsWithFile(f, after);
      ReadFileOf(f, after);
      if |fs| == 1 {
        assert after == r;
        assert FileViews(fs) == [FileViewOf(f)];
        ReadFilesLast(FileXML(f) + after, FileViewOf(f), r);
      } else {
        Assoc("\n", FilesXML(more), r);
        assert after[1..] == FilesXML(more) + r;
        StartsWithFiles(more, r);
        PrefixAfterNewline(FileOpen, FilesXML(more) + r);
        ReadFilesOf(more, r);
        ReadFilesStep(FileXML(f) + after, FileViewOf(f), after, FileViews(more), r);
      }
    }
  }

  /** The text after a list is not mistaken for another element: the closing
      tags are indented by four spaces, elements by eight. */
  lemma ListEndsAreNotElements(tail: string)
    ensures !PrefixAt(CommentOpen, CommentsClose + tail, 0)
    ensures !PrefixAt("\n" + CommentOpen, CommentsClose + tail, 0)
    ensures !PrefixAt(FileOpen, Footer, 0)
    ensures !PrefixAt("\n" + FileOpen, Footer, 0)
  {
    var t := CommentsClose + tail;
    assert t[5] == '<' && t[1] == ' ';
    assert CommentOpen[5] == ' ';
    assert ("\n" + CommentOpen)[1] == '\n';
    assert Footer[5] == '<' && Footer[1] == ' ';
    assert FileOpen[5] == ' ';
    assert ("\n" + FileOpen)[1] == '\n';
  }

  lemma RegroupDocument(a: string, b: string, c: string, d: string, e: string, f: string,
                        g: string, h: string, i: string, j: string, k: string, l: string,
                        m: string)
    ensures a + b + c + d + e + f + g + h + i + j + k + l + m
         == a + b + (c + d + (e + f + (g + h + (i + (j + (k + (l + m)))))))
  {
  }

  /** Reading the serialisation back gives the number, the title, the author,
      the description (empty when absent), every comment and every file with
      its patch (empty when absent), in their original order; the free-text
      fields come back exactly as they were, so each was escaped exactly once.
      This needs the values inserted raw to hold no `<`. */
  lemma ReadToXML(pr: PullRequest)
    requires RawFieldsPlain(pr)
    ensures ReadPullRequest(ToXML(pr)) == Some(ViewOf(pr))
  {
    var title := EscapeXML(pr.title);
    var description := EscapeXML(OrEmpty(pr.description));
    var r7 := CommentsClose + (FilesXML(pr.files) + Footer);
    var r6 := CommentsXML(pr.comments) + r7;
    var r5 := DescriptionClose + r6;
    var r4 := AuthorClose + description + r5;
    var r3 := TitleClose + pr.author + r4;
    var r2 := NumberClose + title + r3;
    RegroupDocument(Header, NatToString(pr.number), NumberClose, title, TitleClose, pr.author,
                    AuthorClose, description, DescriptionClose, CommentsXML(pr.comments),
                    CommentsClose, FilesXML(pr.files), Footer);
    assert ToXML(pr) == Header + NatToString(pr.number) + r2;
    ReadNumberOf(Header, pr.number, r2);
    EscapedIsTagFree(pr.title);
    ReadTextOf(NumberClose, title, r3);
    ReadTextOf(TitleClose, pr.author, r4);
    EscapedIsTagFree(OrEmpty(pr.description));
    ReadTextOf(AuthorClose, description, r5);
    ExpectLiteral(DescriptionClose, r6);
    ListEndsAreNotElements(FilesXML(pr.files) + Footer);
    ReadCommentsOf(pr.comments, r7);
    ExpectLiteral(CommentsClose, FilesXML(pr.files) + Footer);
    ReadFilesOf(pr.files, Footer);
    ExpectLiteral(Footer, []);
    assert Footer + [] == Footer;
    UnescapeEscape(pr.title);
    UnescapeEscape(OrEmpty(pr.description));
  }

  lemma JoinFirst(parts: seq<string>, sep: string)
    requires |parts| > 0
    ensures |parts| == 1 ==> Join(parts, sep) == parts[0]
    ensures |parts| > 1 ==> Join(parts, sep) == parts[0] + (sep + Join(parts[1..], sep))
  {
    if |parts| > 1 {
      Assoc(parts[0], sep, Join(parts[1..], sep));
    }
  }

  lemma Assoc(x: string, y: string, z: string)
    ensures x + y + z == x + (y + z)
  {
  }

  lemma PrefixAfterNewline(p: string, t: string)
    requires PrefixAt(p, t, 0)
    ensures PrefixAt("\n" + p, "\n" + t, 0)
  {
    assert ("\n" + t)[..1 + |p|] == "\n" + t[..|p|];
  }
}
