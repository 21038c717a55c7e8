/** The pull-request snapshot of src/pull-request/PullRequest.js: the fields
    the constructor keeps, the lines-changed metric, the XML escaper and the
    fixed-shape XML serialisation handed to the quiz generator. */
module PullRequests {
  import opened Common

  datatype User = User(login: string)

  /** The fields of the code host's pull-request record that the constructor reads.
      `body` is null when the pull request has no description. */
  datatype PullRequestData = PullRequestData(
    number: nat, title: string, user: User, body: Option<string>, htmlUrl: string)

  /** One changed file; `patch` is absent for binary or very large files. */
  datatype FileChange = FileChange(
    filename: string, status: string, additions: nat, deletions: nat, changes: nat,
    patch: Option<string>)

  datatype Comment = Comment(user: User, createdAt: string, body: string)

  datatype PullRequest = PullRequest(
    number: nat, title: string, author: string, description: Option<string>,
    htmlUrl: string, files: seq<FileChange>, comments: seq<Comment>)

  /** `new PullRequest(pr, files, comments)`: copies the record's fields, takes
      the author from `user.login` and keeps the files and comments as given. */
  function NewPullRequest(pr: PullRequestData, files: seq<FileChange>, comments: seq<Comment>)
    : (p: PullRequest)
    ensures p.number == pr.number && p.title == pr.title && p.author == pr.user.login
    ensures p.description == pr.body && p.htmlUrl == pr.htmlUrl
    ensures p.files == files && p.comments == comments
  {
    PullRequest(pr.number, pr.title, pr.user.login, pr.body, pr.htmlUrl, files, comments)
  }

  // ---------------------------------------------------------------------------
  // Lines changed

  /** `files.reduce((acc, file) => acc + file.changes, 0)`: a left fold. Every
      file's count is part of the total. */
  function LinesChanged(files: seq<FileChange>): (n: nat)
    ensures files == [] ==> n == 0
    ensures forall i :: 0 <= i < |files| ==> files[i].changes <= n
  {
    if files == [] then 0
    else LinesChanged(files[..|files| - 1]) + files[|files| - 1].changes
  }

  function GetLinesOfCodeChanged(pr: PullRequest): nat {
    LinesChanged(pr.files)
  }

  /** Adding a file adds its `changes`. */
  lemma LinesChangedAppend(files: seq<FileChange>, f: FileChange)
    ensures LinesChanged(files + [f]) == LinesChanged(files) + f.changes
  {
    assert (files + [f])[..|files|] == files;
  }

  /** The metric splits over any partition of the file list. */
  lemma {:induction false} LinesChangedConcat(a: seq<FileChange>, b: seq<FileChange>)
    ensures LinesChanged(a + b) == LinesChanged(a) + LinesChanged(b)
    decreases |b|
  {
    if b == [] {
      assert a + b == a;
    } else {
      var b' := b[..|b| - 1];
      assert a + b == (a + b') + [b[|b| - 1]];
      LinesChangedAppend(a + b', b[|b| - 1]);
      LinesChangedConcat(a, b');
      LinesChangedAppend(b', b[|b| - 1]);
      assert b' + [b[|b| - 1]] == b;
    }
  }

  function SumAdditions(files: seq<FileChange>): nat {
    if files == [] then 0 else SumAdditions(files[..|files| - 1]) + files[|files| - 1].additions
  }

  function SumDeletions(files: seq<FileChange>): nat {
    if files == [] then 0 else SumDeletions(files[..|files| - 1]) + files[|files| - 1].deletions
  }

  /** When every file reports `changes == additions + deletions` (as the code
      host does), the metric is the total of additions and deletions. */
  lemma {:induction false} LinesChangedIsAdditionsPlusDeletions(files: seq<FileChange>)
    requires forall i :: 0 <= i < |files| ==> files[i].changes == files[i].additions + files[i].deletions
    ensures LinesChanged(files) == SumAdditions(files) + SumDeletions(files)
  {
    if files != [] {
      LinesChangedIsAdditionsPlusDeletions(files[..|files| - 1]);
    }
  }

  /** The size gate of src/run.js: no quiz is made for a pull request whose
      metric is below the configured threshold. */
  predicate TooSmallForQuiz(pr: PullRequest, linesChangedThreshold: int) {
    GetLinesOfCodeChanged(pr) < linesChangedThreshold
  }

  /** A single file at or above the threshold is enough to pass the gate. */
  lemma OneLargeFilePassesGate(pr: PullRequest, threshold: int, i: nat)
    requires i < |pr.files| && pr.files[i].changes >= threshold
    ensures !TooSmallForQuiz(pr, threshold)
  {
  }

  // ---------------------------------------------------------------------------
  // XML escaping

  /** The five characters XML 1.0 reserves (section 2.4) and the five
      predefined entities that stand for them (section 4.6). */
  const Reserved: set<char> := {'&', '<', '>', '"', '\''}

  function EntityFor(c: char): string {
    match c
    case '&' => "&amp;"
    case '<' => "&lt;"
    case '>' => "&gt;"
    case '"' => "&quot;"
    case '\'' => "&apos;"
    case _ => [c]
  }

  /** `str.replace(/c/g, e)`: every occurrence of the character c, left to right. */
  function ReplaceAll(s: string, c: char, e: string): (r: string)
    ensures c !in e ==> c !in r
    ensures c !in s ==> r == s
  {
    if s == [] then [] else (if s[0] == c then e else [s[0]]) + ReplaceAll(s[1..], c, e)
  }

  /** `escapeXML`: the five replacements chained in the source's order, `&` first. */
  function EscapeXML(s: string): string {
    ReplaceAll(ReplaceAll(ReplaceAll(ReplaceAll(ReplaceAll(
      s, '&', "&amp;"), '<', "&lt;"), '>', "&gt;"), '"', "&quot;"), '\'', "&apos;")
  }

  /** Per-character escaping of the characters in S only; the state a string is
      in after the passes for the characters of S have run. */
  function Piece(x: char, S: set<char>): string {
    if x in S then EntityFor(x) else [x]
  }

  function EscapeOnly(s: string, S: set<char>): string {
    if s == [] then [] else Piece(s[0], S) + EscapeOnly(s[1..], S)
  }

  lemma {:induction false} ReplaceAllConcat(a: string, b: string, c: char, e: string)
    ensures ReplaceAll(a + b, c, e) == ReplaceAll(a, c, e) + ReplaceAll(b, c, e)
  {
    if a == [] {
      assert a + b == b;
    } else {
      assert (a + b)[1..] == a[1..] + b;
      ReplaceAllConcat(a[1..], b, c, e);
    }
  }

  lemma {:induction false} EscapeOnlyNothing(s: string)
    ensures EscapeOnly(s, {}) == s
  {
    if s != [] {
      EscapeOnlyNothing(s[1..]);
    }
  }

  /** No entity contains a reserved character other than `&`. */
  lemma EntityAvoids(x: char, c: char)
    requires x in Reserved && c in Reserved && c != '&' && x != c
    ensures c !in EntityFor(x)
  {
  }

  /** One pass of the chain: replacing c in a string whose characters of S are
      already escaped escapes c as well, provided c occurs in none of the
      entities already produced. Every entity contains `&`, which is why the
      `&` pass has to run first, while S is still empty. */
  lemma {:induction false} EscapePass(s: string, S: set<char>, c: char, T: set<char>)
    requires S <= Reserved && c in Reserved && c !in S
    requires c == '&' ==> S == {}
    requires forall x :: x in T <==> x in S || x == c
    ensures ReplaceAll(EscapeOnly(s, S), c, EntityFor(c)) == EscapeOnly(s, T)
  {
    if s != [] {
      ReplaceAllConcat(Piece(s[0], S), EscapeOnly(s[1..], S), c, EntityFor(c));
      EscapePass(s[1..], S, c, T);
      if s[0] in S {
        EntityAvoids(s[0], c);
      }
      if s[0] == c {
        assert ReplaceAll([c], c, EntityFor(c)) == EntityFor(c) + ReplaceAll([], c, EntityFor(c));
      }
    }
  }

  /** escapeXML replaces each character on its own: a reserved character by
      its entity, anything else by itself. */
  lemma EscapeXMLPerCharacter(s: string)
    ensures EscapeXML(s) == EscapeOnly(s, Reserved)
  {
    AmpersandPass(s);
    LessThanPass(s);
    GreaterThanPass(s);
    QuotePass(s);
    ApostrophePass(s);
  }

  // The five passes of escapeXML, one lemma each.

  lemma AmpersandPass(s: string)
    ensures ReplaceAll(s, '&', "&amp;") == EscapeOnly(s, {'&'})
  {
    EscapeOnlyNothing(s);
    EscapePass(s, {}, '&', {'&'});
  }

  lemma LessThanPass(s: string)
    ensures ReplaceAll(EscapeOnly(s, {'&'}), '<', "&lt;") == EscapeOnly(s, {'&', '<'})
  {
    EscapePass(s, {'&'}, '<', {'&', '<'});
  }

  lemma GreaterThanPass(s: string)
    ensures ReplaceAll(EscapeOnly(s, {'&', '<'}), '>', "&gt;") == EscapeOnly(s, {'&', '<', '>'})
  {
    EscapePass(s, {'&', '<'}, '>', {'&', '<', '>'});
  }

  lemma QuotePass(s: string)
    ensures ReplaceAll(EscapeOnly(s, {'&', '<', '>'}), '"', "&quot;")
         == EscapeOnly(s, {'&', '<', '>', '"'})
  {
    EscapePass(s, {'&', '<', '>'}, '"', {'&', '<', '>', '"'});
  }

  lemma ApostrophePass(s: string)
    ensures ReplaceAll(EscapeOnly(s, {'&', '<', '>', '"'}), '\'', "&apos;")
         == EscapeOnly(s, Reserved)
  {
    EscapePass(s, {'&', '<', '>', '"'}, '\'', Reserved);
  }

  /** What goes wrong in the other order: with the `&` pass last, the `&` of
      an entity made by an earlier pass is escaped again. */
  lemma AmpersandLastEscapesTwice()
    ensures ReplaceAll(ReplaceAll("<", '<', "&lt;"), '&', "&amp;") == "&amp;lt;"
  {
    ReplaceAllOne('<', "&lt;");
    LessThanEntityParts();
    ReplaceAllConcat(['&'], "lt;", '&', "&amp;");
    ReplaceAllOne('&', "&amp;");
  }

  lemma LessThanEntityParts()
    ensures "&lt;" == ['&'] + "lt;"
    ensures '&' !in "lt;"
    ensures "&amp;" + "lt;" == "&amp;lt;"
  {
  }

  lemma ReplaceAllOne(c: char, e: string)
    ensures ReplaceAll([c], c, e) == e
  {
    assert [c][1..] == [];
  }

  /** Character counts, for the length law. */
  function Count(s: string, c: char): nat {
    if s == [] then 0 else (if s[0] == c then 1 else 0) + Count(s[1..], c)
  }

  /** Each `&` grows by 4 characters, each `<` and `>` by 3, each `"` and `'` by 5. */
  lemma {:induction false} EscapeXMLLength(s: string)
    ensures |EscapeXML(s)| == |s| + 4 * Count(s, '&') + 3 * Count(s, '<') + 3 * Count(s, '>')
                                 + 5 * Count(s, '"') + 5 * Count(s, '\'')
  {
    EscapeXMLPerCharacter(s);
    EscapeOnlyLength(s);
  }

  lemma {:induction false} EscapeOnlyLength(s: string)
    ensures |EscapeOnly(s, Reserved)| == |s| + 4 * Count(s, '&') + 3 * Count(s, '<')
              + 3 * Count(s, '>') + 5 * Count(s, '"') + 5 * Count(s, '\'')
  {
    if s != [] {
      EscapeOnlyLength(s[1..]);
    }
  }

  /** Strings with none of the five characters come out unchanged. */
  lemma EscapeXMLIdentity(s: string)
    requires forall i :: 0 <= i < |s| ==> s[i] !in Reserved
    ensures EscapeXML(s) == s
  {
    assert '&' !in s && '<' !in s && '>' !in s && '"' !in s && '\'' !in s;
  }

  /** The text t holds the entity e at position i. */
  predicate PrefixAt(e: string, t: string, i: nat) {
    i + |e| <= |t| && t[i..i + |e|] == e
  }

  /** t holds one of the five predefined entities at position i. */
  predicate EntityAt(t: string, i: nat) {
    PrefixAt("&amp;", t, i) || PrefixAt("&lt;", t, i) || PrefixAt("&gt;", t, i)
    || PrefixAt("&quot;", t, i) || PrefixAt("&apos;", t, i)
  }

  /** Escaped text: no `<`, `>`, `"` or `'`, and every `&` starts an entity. */
  ghost predicate WellEscaped(t: string) {
    && (forall i :: 0 <= i < |t| ==> t[i] !in {'<', '>', '"', '\''})
    && (forall i :: 0 <= i < |t| && t[i] == '&' ==> EntityAt(t, i))
  }

  lemma PrefixAtShift(e: string, a: string, t: string, i: nat)
    requires PrefixAt(e, t, i)
    ensures PrefixAt(e, a + t, |a| + i)
  {
    assert (a + t)[|a| + i..|a| + i + |e|] == t[i..i + |e|];
  }

  lemma PrefixAtExtend(e: string, t: string, b: string, i: nat)
    requires PrefixAt(e, t, i)
    ensures PrefixAt(e, t + b, i)
  {
    assert (t + b)[i..i + |e|] == t[i..i + |e|];
  }

  lemma EntityAtShift(a: string, t: string, j: nat)
    requires EntityAt(t, j)
    ensures EntityAt(a + t, |a| + j)
  {
    if PrefixAt("&amp;", t, j) { PrefixAtShift("&amp;", a, t, j); }
    if PrefixAt("&lt;", t, j) { PrefixAtShift("&lt;", a, t, j); }
    if PrefixAt("&gt;", t, j) { PrefixAtShift("&gt;", a, t, j); }
    if PrefixAt("&quot;", t, j) { PrefixAtShift("&quot;", a, t, j); }
    if PrefixAt("&apos;", t, j) { PrefixAtShift("&apos;", a, t, j); }
  }

  lemma EntityAtExtend(t: string, b: string, i: nat)
    requires EntityAt(t, i)
    ensures EntityAt(t + b, i)
  {
    if PrefixAt("&amp;", t, i) { PrefixAtExtend("&amp;", t, b, i); }
    if PrefixAt("&lt;", t, i) { PrefixAtExtend("&lt;", t, b, i); }
    if PrefixAt("&gt;", t, i) { PrefixAtExtend("&gt;", t, b, i); }
    if PrefixAt("&quot;", t, i) { PrefixAtExtend("&quot;", t, b, i); }
    if PrefixAt("&apos;", t, i) { PrefixAtExtend("&apos;", t, b, i); }
  }

  /** Well-escaped texts stay well escaped when put side by side. */
  lemma WellEscapedConcat(a: string, b: string)
    requires WellEscaped(a) && WellEscaped(b)
    ensures WellEscaped(a + b)
  {
    forall i | 0 <= i < |a + b| && (a + b)[i] == '&'
      ensures EntityAt(a + b, i)
    {
      if i < |a| {
        assert a[i] == '&';
        EntityAtExtend(a, b, i);
      } else {
        assert b[i - |a|] == '&';
        EntityAtShift(a, b, i - |a|);
      }
    }
  }

  lemma PieceWellEscaped(x: char)
    ensures WellEscaped(Piece(x, Reserved))
  {
    var p := Piece(x, Reserved);
    if x in Reserved {
      assert p[0..|p|] == p;
      assert EntityAt(p, 0);
    }
  }

  lemma {:induction false} EscapeOnlyWellEscaped(s: string)
    ensures WellEscaped(EscapeOnly(s, Reserved))
  {
    if s != [] {
      EscapeOnlyWellEscaped(s[1..]);
      PieceWellEscaped(s[0]);
      WellEscapedConcat(Piece(s[0], Reserved), EscapeOnly(s[1..], Reserved));
    }
  }

  /** The output of escapeXML is well escaped, whatever the input. */
  lemma EscapeXMLWellEscaped(s: string)
    ensures WellEscaped(EscapeXML(s))
  {
    EscapeXMLPerCharacter(s);
    EscapeOnlyWellEscaped(s);
  }

  // ---------------------------------------------------------------------------
  // Unescaping: the inverse of escapeXML

  /** `t.replace(/pat/g, rep)` for a literal pattern: non-overlapping matches,
      left to right. */
  function ReplaceText(t: string, pat: string, rep: string): string
    requires pat != []
    decreases |t|
  {
    if t == [] then []
    else if PrefixAt(pat, t, 0) then rep + ReplaceText(t[|pat|..], pat, rep)
    else [t[0]] + ReplaceText(t[1..], pat, rep)
  }

  /** Reverse the five entities, `&amp;` last. */
  function UnescapeXML(t: string): string {
    ReplaceText(ReplaceText(ReplaceText(ReplaceText(ReplaceText(
      t, "&lt;", "<"), "&gt;", ">"), "&quot;", "\""), "&apos;", "'"), "&amp;", "&")
  }

  lemma {:induction false} ReplaceTextSkip(u: string, r: string, pat: string, rep: string)
    requires pat != [] && pat[0] == '&' && '&' !in u
    ensures ReplaceText(u + r, pat, rep) == u + ReplaceText(r, pat, rep)
  {
    if u == [] {
      assert u + r == r;
    } else {
      assert (u + r)[0] == u[0];
      assert (u + r)[1..] == u[1..] + r;
      ReplaceTextSkip(u[1..], r, pat, rep);
    }
  }

  /** Two different entities differ within their first three characters. */
  lemma EntitiesDiffer(x: char, c: char)
    requires x in Reserved && c in Reserved && x != c
    ensures |EntityFor(x)| >= 4 && |EntityFor(c)| >= 4
    ensures EntityFor(x)[1] != EntityFor(c)[1] || EntityFor(x)[2] != EntityFor(c)[2]
  {
  }

  /** A piece that is not the entity being reversed passes through untouched. */
  lemma ReplaceTextOtherEntity(x: char, c: char, r: string)
    requires x in Reserved && c in Reserved && x != c
    ensures ReplaceText(EntityFor(x) + r, EntityFor(c), [c])
         == EntityFor(x) + ReplaceText(r, EntityFor(c), [c])
  {
    var pat, p := EntityFor(c), EntityFor(x);
    OtherEntityIsNoMatch(x, c, r);
    EntityTail(x, r);
    ReplaceTextSkip(p[1..], r, pat, [c]);
    assert [p[0]] + p[1..] == p;
  }

  lemma OtherEntityIsNoMatch(x: char, c: char, r: string)
    requires x in Reserved && c in Reserved && x != c
    ensures !PrefixAt(EntityFor(c), EntityFor(x) + r, 0)
  {
    var p := EntityFor(x);
    EntitiesDiffer(x, c);
    assert (p + r)[1] == p[1] && (p + r)[2] == p[2];
  }

  lemma EntityTail(x: char, r: string)
    requires x in Reserved
    ensures (EntityFor(x) + r)[0] == '&' && (EntityFor(x) + r)[1..] == EntityFor(x)[1..] + r
    ensures '&' !in EntityFor(x)[1..]
  {
  }

  lemma ReplaceTextSameEntity(c: char, r: string)
    requires c in Reserved
    ensures ReplaceText(EntityFor(c) + r, EntityFor(c), [c]) == [c] + ReplaceText(r, EntityFor(c), [c])
  {
    var pat := EntityFor(c);
    assert (pat + r)[..|pat|] == pat;
    assert (pat + r)[|pat|..] == r;
  }

  lemma ReplaceTextPiece(x: char, S: set<char>, c: char, r: string)
    requires '&' in S && c in S && S <= Reserved
    ensures ReplaceText(Piece(x, S) + r, EntityFor(c), [c])
         == Piece(x, S - {c}) + ReplaceText(r, EntityFor(c), [c])
  {
    if x == c {
      ReplaceTextSameEntity(c, r);
    } else if x in S {
      ReplaceTextOtherEntity(x, c, r);
    } else {
      ReplaceTextSkip([x], r, EntityFor(c), [c]);
    }
  }

  /** One reverse pass undoes the escaping of c, as long as `&` is still
      escaped; this is why `&amp;` has to be reversed last. */
  lemma {:induction false} UnescapePass(s: string, S: set<char>, c: char)
    requires '&' in S && c in S && S <= Reserved
    ensures ReplaceText(EscapeOnly(s, S), EntityFor(c), [c]) == EscapeOnly(s, S - {c})
  {
    if s != [] {
      ReplaceTextPiece(s[0], S, c, EscapeOnly(s[1..], S));
      UnescapePass(s[1..], S, c);
    }
  }

  /** Unescaping gives back the original text: escapeXML loses nothing, so
      every field is escaped exactly once and can be recovered. */
  lemma UnescapeEscape(s: string)
    ensures UnescapeXML(EscapeXML(s)) == s
  {
    EscapeXMLPerCharacter(s);
    UnescapeLessThan(s);
    UnescapeGreaterThan(s);
    UnescapeQuote(s);
    UnescapeApostrophe(s);
    UnescapeAmpersand(s);
  }

  lemma RemoveFromSet(S: set<char>, c: char, T: set<char>)
    requires forall x :: x in T <==> x in S && x != c
    ensures S - {c} == T
  {
  }

  // The five reverse passes, one lemma each.

  lemma UnescapeLessThan(s: string)
    ensures ReplaceText(EscapeOnly(s, Reserved), "&lt;", "<")
         == EscapeOnly(s, {'&', '>', '"', '\''})
  {
    UnescapePass(s, Reserved, '<');
    RemoveFromSet(Reserved, '<', {'&', '>', '"', '\''});
  }

  lemma UnescapeGreaterThan(s: string)
    ensures ReplaceText(EscapeOnly(s, {'&', '>', '"', '\''}), "&gt;", ">")
         == EscapeOnly(s, {'&', '"', '\''})
  {
    UnescapePass(s, {'&', '>', '"', '\''}, '>');
    RemoveFromSet({'&', '>', '"', '\''}, '>', {'&', '"', '\''});
  }

  lemma UnescapeQuote(s: string)
    ensures ReplaceText(EscapeOnly(s, {'&', '"', '\''}), "&quot;", "\"")
         == EscapeOnly(s, {'&', '\''})
  {
    UnescapePass(s, {'&', '"', '\''}, '"');
    RemoveFromSet({'&', '"', '\''}, '"', {'&', '\''});
  }

  lemma UnescapeApostrophe(s: string)
    ensures ReplaceText(EscapeOnly(s, {'&', '\''}), "&apos;", "'") == EscapeOnly(s, {'&'})
  {
    UnescapePass(s, {'&', '\''}, '\'');
    RemoveFromSet({'&', '\''}, '\'', {'&'});
  }

  lemma UnescapeAmpersand(s: string)
    ensures ReplaceText(EscapeOnly(s, {'&'}), "&amp;", "&") == s
  {
    UnescapePass(s, {'&'}, '&');
    RemoveFromSet({'&'}, '&', {});
    EscapeOnlyNothing(s);
  }

  lemma EscapeXMLInjective(s: string, s': string)
    requires EscapeXML(s) == EscapeXML(s')
    ensures s == s'
  {
    UnescapeEscape(s);
    UnescapeEscape(s');
  }

  // ---------------------------------------------------------------------------
  // Serialisation

  /** `x || ''`: null, undefined and the empty string all give the empty string. */
  function OrEmpty(s: Option<string>): (r: string)
    ensures s.None? ==> r == []
    ensures s.Some? ==> r == s.value
  {
    if s.Some? then s.value else ""
  }

  // The fixed text between the interpolated values of the templates, in order.

  const Header := "\n<pull_request>\n    <number>"
  const NumberClose := "</number>\n    <title>"
  const TitleClose := "</title>\n    <author>"
  const AuthorClose := "</author>\n    <description>"
  const DescriptionClose := "</description>\n\n    <comments>\n    "
  const CommentsClose := "\n    </comments>\n    \n    <files>\n    "
  const Footer := "\n    </files>\n</pull_request>"

  const CommentOpen := "\n        <comment>\n            <author>"
  const CommentAuthorClose := "</author>\n            <created_at>"
  const CreatedAtClose := "</created_at>\n            <body>"
  const CommentClose := "</body>\n        </comment>\n    "

  const FileOpen := "\n        <file>\n            <filename>"
  const FilenameClose := "</filename>\n            <status>"
  const StatusClose := "</status>\n            <changes>+"
  const AdditionsClose := " -"
  const DeletionsClose := "</changes>\n            <patch>"
  const FileClose := "</patch>\n        </file>\n    "

  /** `Array.prototype.join(sep)`. */
  function Join(parts: seq<string>, sep: string): string {
    if |parts| == 0 then ""
    else if |parts| == 1 then parts[0]
    else parts[0] + sep + Join(parts[1..], sep)
  }

  /** The comment template: author and timestamp raw, body escaped. */
  function CommentXML(c: Comment): string {
    CommentOpen + c.user.login + CommentAuthorClose + c.createdAt + CreatedAtClose
      + EscapeXML(c.body) + CommentClose
  }

  /** The file template: name, status and the `+A -D` counts raw, patch escaped. */
  function FileXML(f: FileChange): string {
    FileOpen + f.filename + FilenameClose + f.status + StatusClose
      + NatToString(f.additions) + AdditionsClose + NatToString(f.deletions) + DeletionsClose
      + EscapeXML(OrEmpty(f.patch)) + FileClose
  }

  /** `comments.map(...)`: one element per comment, in order. */
  function CommentElements(cs: seq<Comment>): (parts: seq<string>)
    ensures |parts| == |cs|
  {
    seq(|cs|, i requires 0 <= i < |cs| => CommentXML(cs[i]))
  }

  function CommentsXML(cs: seq<Comment>): string {
    Join(CommentElements(cs), "\n")
  }

  /** `files.map(...)`: one element per file, in order. */
  function FileElements(fs: seq<FileChange>): (parts: seq<string>)
    ensures |parts| == |fs|
  {
    seq(|fs|, i requires 0 <= i < |fs| => FileXML(fs[i]))
  }

  function FilesXML(fs: seq<FileChange>): string {
    Join(FileElements(fs), "\n")
  }

  /** `toXML()`: number and author raw, title and description escaped, then
      every comment and every file in order. */
  function ToXML(pr: PullRequest): string {
    Header + NatToString(pr.number) + NumberClose + EscapeXML(pr.title) + TitleClose
      + pr.author + AuthorClose + EscapeXML(OrEmpty(pr.description)) + DescriptionClose
      + CommentsXML(pr.comments) + CommentsClose + FilesXML(pr.files) + Footer
  }

  /** A null description serialises as an empty element, like an empty one. */
  lemma NullDescriptionIsEmpty(pr: PullRequest)
    requires pr.description.None?
    ensures ToXML(pr) == ToXML(pr.(description := Some("")))
  {
  }

  /** A file without a patch serialises with an empty patch element. */
  lemma MissingPatchIsEmpty(f: FileChange)
    requires f.patch.None?
    ensures FileXML(f) == FileXML(f.(patch := Some("")))
  {
  }
}
