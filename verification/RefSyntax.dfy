/**
 What a reference is (internal/fact/ref.go): bare paths and kb:// paths of this repo, kb:// paths
 of others, src:// citations and URLs.

 Lower-casing is of ASCII letters; strings are sequences of characters.
*/
module RefSyntax {
  import opened Wrappers

  const KB_SCHEME := "kb://"
  const SRC_SCHEME := "src://"
  const REPO_ID_LEN := 12

  datatype Kind = LocalFact | ForeignFact | SourceCode | ExternalUrl | Malformed

  datatype Ref = Ref(raw: string, kind: Kind, repoId: string, path: string, commit: string, blob: string, lines: string, legacy: bool)

  // ---------- characters and strings ----------

  function LowerChar(c: char): char {
    if 'A' <= c <= 'Z' then c - 'A' + 'a' else c
  }

  // Two characters fold to one exactly when they are one or an ASCII letter in both cases, and then to
  // the small one.
  lemma LowerFolds(c: char, d: char)
    ensures LowerChar(c) == LowerChar(d) <==>
      c == d || ('A' <= c <= 'Z' && d as int == c as int + 32) || ('A' <= d <= 'Z' && c as int == d as int + 32)
    ensures LowerChar(c) == c <==> !('A' <= c <= 'Z')
  {
  }

  function Lower(s: string): (r: string)
    ensures |r| == |s| && forall i :: 0 <= i < |s| ==> r[i] == LowerChar(s[i])
  {
    seq(|s|, i requires 0 <= i < |s| => LowerChar(s[i]))
  }

  predicate IsPrefix(p: string, s: string) {
    |p| <= |s| && s[..|p|] == p
  }

  predicate LowerHexChar(c: char) {
    '0' <= c <= '9' || 'a' <= c <= 'f'
  }

  predicate LowerHex(s: string) {
    s != "" && forall i :: 0 <= i < |s| ==> LowerHexChar(s[i])
  }

  predicate Digits(s: string) {
    s != "" && forall i :: 0 <= i < |s| ==> '0' <= s[i] <= '9'
  }

  method IsLowerHex(s: string) returns (r: bool)
    ensures r <==> LowerHex(s)
  {
    if s == "" { return false; }
    for i := 0 to |s|
      invariant forall j :: 0 <= j < i ==> LowerHexChar(s[j])
    {
      var c := s[i];
      if (c < '0' || c > '9') && (c < 'a' || c > 'f') { return false; }
    }
    r := true;
  }

  method IsDigits(s: string) returns (r: bool)
    ensures r <==> Digits(s)
  {
    if s == "" { return false; }
    for i := 0 to |s|
      invariant forall j :: 0 <= j < i ==> '0' <= s[j] <= '9'
    {
      if s[i] < '0' || s[i] > '9' { return false; }
    }
    r := true;
  }

  /** Where c first occurs in s, or |s|. */
  function First(s: string, c: char): (i: nat)
    ensures i <= |s| && c !in s[..i] && (i < |s| ==> s[i] == c)
  {
    if s == "" || s[0] == c then 0 else 1 + First(s[1..], c)
  }

  /** Where c last occurs in s, or |s|. */
  function Last(s: string, c: char): (i: nat)
    ensures i <= |s| && (i < |s| ==> s[i] == c && c !in s[i + 1..]) && (i == |s| ==> c !in s)
  {
    if s == "" then 0
    else if s[|s| - 1] == c then |s| - 1
    else
      var i := Last(s[..|s| - 1], c);
      assert s == s[..|s| - 1] + [s[|s| - 1]];
      if i == |s| - 1 then |s| else i
  }

  lemma FirstIs(s: string, c: char, i: nat)
    requires i < |s| && s[i] == c && c !in s[..i]
    ensures First(s, c) == i
  {
    assert s[..|s|] == s;
    assert forall j :: 0 <= j < i ==> s[..i][j] == s[j];
    assert forall j :: 0 <= j < First(s, c) ==> s[..First(s, c)][j] == s[j];
  }

  lemma LastIs(s: string, c: char, i: nat)
    requires i < |s| && s[i] == c && c !in s[i + 1..]
    ensures Last(s, c) == i
  {
    var l := Last(s, c);
    assert s[i] in s;
    assert forall j :: i < j < |s| ==> s[i + 1..][j - i - 1] == s[j];
    assert forall j :: l < j < |s| ==> s[l + 1..][j - l - 1] == s[j];
  }

  lemma NoFirst(s: string, c: char)
    requires c !in s
    ensures First(s, c) == |s| && Last(s, c) == |s|
  {
  }

  // ---------- schemes ----------

  predicate Alpha(c: char) {
    'a' <= c <= 'z' || 'A' <= c <= 'Z'
  }

  predicate SchemeChar(c: char) {
    Alpha(c) || '0' <= c <= '9' || c == '+' || c == '-' || c == '.'
  }

  /** scheme = ALPHA *( ALPHA / DIGIT / "+" / "-" / "." ), section 3.1 of RFC 3986. */
  predicate IsScheme(s: string) {
    s != "" && Alpha(s[0]) && forall i :: 0 <= i < |s| ==> SchemeChar(s[i])
  }

  predicate HasScheme(s: string) {
    First(s, ':') < |s| && IsScheme(s[..First(s, ':')])
  }

  // The loop accepts exactly a scheme of RFC 3986 followed by ':'.
  method ScanScheme(s: string) returns (r: bool)
    ensures r <==> exists i :: 0 < i < |s| && s[i] == ':' && IsScheme(s[..i])
    ensures r <==> HasScheme(s)
  {
    for i := 0 to |s|
      invariant ':' !in s[..i]
      invariant i > 0 ==> IsScheme(s[..i])
    {
      var c := s[i];
      if c == ':' {
        FirstIs(s, ':', i);
        if i > 0 { assert IsScheme(s[..i]); }
        SchemeEndsAt(s, i);
        return i > 0;
      }
      if Alpha(c) {
      } else if i > 0 && ('0' <= c <= '9' || c == '+' || c == '-' || c == '.') {
      } else {
        NotASchemeChar(s, i);
        return false;
      }
      assert s[..i + 1] == s[..i] + [c];
    }
    assert s[..|s|] == s;
    NoFirst(s, ':');
    return false;
  }

  lemma SchemeEndsAt(s: string, i: nat)
    requires i < |s| && s[i] == ':' && ':' !in s[..i]
    ensures forall j :: i < j < |s| && s[j] == ':' ==> !IsScheme(s[..j])
    ensures forall j :: 0 < j < i ==> s[j] != ':'
  {
    forall j | i < j < |s| && s[j] == ':'
      ensures !IsScheme(s[..j])
    {
      assert s[..j][i] == ':';
    }
    forall j | 0 < j < i
      ensures s[j] != ':'
    {
      assert s[..i][j] == s[j];
    }
  }

  lemma NotASchemeChar(s: string, i: nat)
    requires i < |s| && s[i] != ':' && ':' !in s[..i] && (!SchemeChar(s[i]) || (i == 0 && !Alpha(s[i])))
    ensures !HasScheme(s)
    ensures forall j :: 0 < j < |s| && s[j] == ':' ==> !IsScheme(s[..j])
  {
    forall j | 0 < j < |s| && s[j] == ':'
      ensures !IsScheme(s[..j])
    {
      assert forall k :: 0 <= k < i ==> s[..i][k] == s[k];
      assert s[..j][i] == s[i] && s[..j][0] == s[0];
    }
  }

  // ---------- kb:// ----------

  datatype KbPath = Bare(rel: string) | Qualified(id: string, rel: string) | BadKb

  function ParseKbPath(p: string): KbPath {
    if !IsPrefix(KB_SCHEME, p) then Bare(p)
    else
      var rest := p[|KB_SCHEME|..];
      var i := First(rest, '/');
      var id := Lower(rest[..i]);
      if i == |rest| || i + 1 == |rest| || |id| != REPO_ID_LEN || !LowerHex(id) then BadKb
      else Qualified(id, rest[i + 1..])
  }

  function QualifyKbPath(id: string, rel: string): string {
    KB_SCHEME + id + "/" + rel
  }

  predicate RepoId(id: string) {
    |id| == REPO_ID_LEN && LowerHex(id)
  }

  lemma LowerFixes(s: string)
    requires forall i :: 0 <= i < |s| ==> LowerChar(s[i]) == s[i]
    ensures Lower(s) == s
  {
  }

  lemma LowerTwice(s: string)
    ensures Lower(Lower(s)) == Lower(s)
  {
    LowerFixes(Lower(s));
  }

  lemma KbTail(id: string, rel: string)
    ensures IsPrefix(KB_SCHEME, QualifyKbPath(id, rel))
    ensures QualifyKbPath(id, rel)[|KB_SCHEME|..] == id + "/" + rel
    ensures (id + "/" + rel)[..|id|] == id && (id + "/" + rel)[|id|] == '/' && (id + "/" + rel)[|id| + 1..] == rel
  {
    assert QualifyKbPath(id, rel) == KB_SCHEME + (id + "/" + rel);
  }

  // What QualifyKBPath writes, ParseKBPath reads back.
  lemma KbRoundTrip(id: string, rel: string)
    requires RepoId(id) && rel != ""
    ensures ParseKbPath(QualifyKbPath(id, rel)) == Qualified(id, rel)
  {
    KbTail(id, rel);
    FirstIs(id + "/" + rel, '/', |id|);
    LowerFixes(id);
  }

  // ParseKBPath accepts exactly what QualifyKBPath writes for a 12-hex id, in either case, and a
  // non-empty path.
  lemma KbParsed(p: string)
    requires IsPrefix(KB_SCHEME, p)
    ensures ParseKbPath(p).Qualified? <==>
              exists id, rel :: '/' !in id && RepoId(Lower(id)) && rel != "" && p == QualifyKbPath(id, rel)
    ensures forall id, rel :: '/' !in id && RepoId(Lower(id)) && rel != "" && p == QualifyKbPath(id, rel) ==>
              ParseKbPath(p) == Qualified(Lower(id), rel)
  {
    var rest := p[|KB_SCHEME|..];
    var i := First(rest, '/');
    if ParseKbPath(p).Qualified? {
      assert p == KB_SCHEME + rest && rest == rest[..i] + "/" + rest[i + 1..];
      assert p == QualifyKbPath(rest[..i], rest[i + 1..]);
    }
    forall id, rel | '/' !in id && RepoId(Lower(id)) && rel != "" && p == QualifyKbPath(id, rel)
      ensures ParseKbPath(p) == Qualified(Lower(id), rel)
    {
      KbTail(id, rel);
      FirstIs(id + "/" + rel, '/', |id|);
    }
  }

  // ---------- src:// ----------

  /** "L241", "L241-L259" or "L241-259", as "241" or "241-259". */
  function ParseLines(s: string): Option<string> {
    if !IsPrefix("L", s) then None
    else
      var body := s[1..];
      var i := First(body, '-');
      if !Digits(body[..i]) then None
      else if i == |body| then Some(body)
      else
        var rest := body[i + 1..];
        var end := if IsPrefix("L", rest) then rest[1..] else rest;
        if Digits(end) then Some(body[..i] + "-" + end) else None
  }

  /** A trailing line range, if the last fragment is one; else '#' belongs to the path. */
  function SplitLines(rest: string): (string, Option<string>) {
    var i := Last(rest, '#');
    if i < |rest| && ParseLines(rest[i + 1..]).Some? then (rest[..i], Some(rest[i + 1..])) else (rest, None)
  }

  /** What stands after the last '@', if any. */
  function SplitVersion(rest: string): (string, Option<string>) {
    var i := Last(rest, '@');
    if i < |rest| then (rest[..i], Some(rest[i + 1..])) else (rest, None)
  }

  function BadRef(raw: string): Ref {
    Ref(raw, Malformed, "", "", "", "", "", false)
  }

  function ClassifySrc(raw: string): Ref
    requires IsPrefix(SRC_SCHEME, raw)
  {
    var (body, fragment) := SplitLines(raw[|SRC_SCHEME|..]);
    var (head, version) := SplitVersion(body);
    Assemble(raw, head, version, fragment)
  }

  /** The version cut at its first ':', the rest at its first '/'. */
  function Assemble(raw: string, head: string, version: Option<string>, fragment: Option<string>): Ref {
    var v := if version.Some? then version.value else "";
    var colon := First(v, ':');
    var commit := v[..colon];
    var blob := if colon < |v| then v[colon + 1..] else "";
    var slash := First(head, '/');
    if version.Some? && (commit == "" || (colon < |v| && blob == "")) then BadRef(raw)
    else if slash == |head| || slash == 0 || slash + 1 == |head| then BadRef(raw)
    else
      Ref(raw, SourceCode, head[..slash], head[slash + 1..], commit, blob,
          if fragment.Some? && ParseLines(fragment.value).Some? then ParseLines(fragment.value).value else "",
          blob == "" || commit == "" || !RepoId(head[..slash]))
  }

  /** The parts of a src:// ref, as written. */
  datatype Src = Src(repo: string, path: string, version: Option<Version>, fragment: Option<string>)
  datatype Version = Version(commit: string, blob: Option<string>)

  function PrintVersion(v: Version): string {
    v.commit + if v.blob.Some? then ":" + v.blob.value else ""
  }

  function PrintBody(s: Src): string {
    s.repo + "/" + s.path + if s.version.Some? then "@" + PrintVersion(s.version.value) else ""
  }

  function PrintSrc(s: Src): string {
    SRC_SCHEME + (PrintBody(s) + if s.fragment.Some? then "#" + s.fragment.value else "")
  }

  /** The parts may be anything that leaves no doubt: no '/' in the repo, no '@' after the one that
      sets off the version (nor anywhere when there is none), no ':' in the commit, and a line
      range at the end only where it is meant as one. */
  ghost predicate Unambiguous(s: Src) {
    && s.repo != "" && '/' !in s.repo && s.path != ""
    && (s.version.Some? ==>
          && s.version.value.commit != "" && ':' !in s.version.value.commit && '@' !in s.version.value.commit
          && (s.version.value.blob.Some? ==> s.version.value.blob.value != "" && '@' !in s.version.value.blob.value))
    && (s.version.None? ==> '@' !in s.repo && '@' !in s.path)
    && (s.fragment.Some? ==> ParseLines(s.fragment.value).Some?)
    && (s.fragment.None? ==> SplitLines(PrintBody(s)).1.None?)
  }

  function RefOf(s: Src): Ref {
    var commit := if s.version.Some? then s.version.value.commit else "";
    var blob := if s.version.Some? && s.version.value.blob.Some? then s.version.value.blob.value else "";
    Ref(PrintSrc(s), SourceCode, s.repo, s.path, commit, blob,
        if s.fragment.Some? && ParseLines(s.fragment.value).Some? then ParseLines(s.fragment.value).value else "",
        blob == "" || commit == "" || !RepoId(s.repo))
  }

  predicate LineChar(c: char) {
    '0' <= c <= '9' || c == 'L' || c == '-'
  }

  predicate LineText(s: string) {
    forall k :: 0 <= k < |s| ==> LineChar(s[k])
  }

  // A line range holds no '#', so the last '#' is the one that sets it off.
  lemma LinesNoHash(s: string)
    requires ParseLines(s).Some?
    ensures s != "" && LineText(s)
  {
    var body := s[1..];
    var i := First(body, '-');
    forall k | 0 <= k < |s|
      ensures LineChar(s[k])
    {
      if k > 0 { LineBody(body, i, k - 1); }
    }
  }

  lemma LineBody(body: string, i: nat, k: nat)
    requires i <= |body| && k < |body| && Digits(body[..i]) && (i < |body| ==> body[i] == '-')
    requires i < |body| ==>
      var rest := body[i + 1..]; Digits(if IsPrefix("L", rest) then rest[1..] else rest)
    ensures LineChar(body[k])
  {
    if k < i {
      assert body[k] == body[..i][k];
    } else if k > i {
      var rest := body[i + 1..];
      assert body[k] == rest[k - i - 1];
      if IsPrefix("L", rest) && k > i + 1 { assert rest[k - i - 1] == rest[1..][k - i - 2]; }
      if IsPrefix("L", rest) && k == i + 1 { assert rest[0] == rest[..1][0]; }
    }
  }

  lemma SplitLinesOf(body: string, fragment: Option<string>)
    requires fragment.Some? ==> ParseLines(fragment.value).Some?
    requires fragment.None? ==> SplitLines(body).1.None?
    ensures SplitLines(body + if fragment.Some? then "#" + fragment.value else "") == (body, fragment)
  {
    hide ParseLines, Last, Digits;
    if fragment.Some? {
      LinesNoHash(fragment.value);
      LastOfTail(body, '#', fragment.value);
    } else {
      assert body + "" == body;
    }
  }

  lemma LastOfTail(body: string, c: char, tail: string)
    requires c !in tail
    ensures var s := body + ([c] + tail); Last(s, c) == |body| && s[..|body|] == body && s[|body| + 1..] == tail
  {
    var s := body + ([c] + tail);
    assert s[|body| + 1..] == tail && s[|body|] == c;
    LastIs(s, c, |body|);
  }

  lemma SplitVersionOf(head: string, version: Option<string>)
    requires version.Some? ==> '@' !in version.value
    requires version.None? ==> '@' !in head
    ensures SplitVersion(head + if version.Some? then "@" + version.value else "") == (head, version)
  {
    if version.Some? {
      var rest := head + ("@" + version.value);
      assert rest[|head| + 1..] == version.value && rest[..|head|] == head;
      LastIs(rest, '@', |head|);
    } else {
      assert head + "" == head;
      NoFirst(head, '@');
    }
  }

  lemma CutsHead(repo: string, path: string)
    requires '/' !in repo
    ensures var head := repo + "/" + path;
            First(head, '/') == |repo| && head[..|repo|] == repo && head[|repo| + 1..] == path
  {
    var head := repo + "/" + path;
    assert head[..|repo|] == repo && head[|repo|] == '/';
    FirstIs(head, '/', |repo|);
  }

  lemma VersionNoAt(v: Version)
    requires '@' !in v.commit && (v.blob.Some? ==> '@' !in v.blob.value)
    ensures '@' !in PrintVersion(v)
  {
  }

  lemma SrcTail(tail: string)
    ensures IsPrefix(SRC_SCHEME, SRC_SCHEME + tail) && (SRC_SCHEME + tail)[|SRC_SCHEME|..] == tail
  {
  }

  function VersionText(s: Src): Option<string> {
    if s.version.Some? then Some(PrintVersion(s.version.value)) else None
  }

  lemma SrcSplits(s: Src)
    requires Unambiguous(s)
    ensures SplitLines(PrintBody(s) + if s.fragment.Some? then "#" + s.fragment.value else "") == (PrintBody(s), s.fragment)
    ensures SplitVersion(PrintBody(s)) == (s.repo + "/" + s.path, VersionText(s))
  {
    SplitLinesOf(PrintBody(s), s.fragment);
    if s.version.Some? { VersionNoAt(s.version.value); }
    SplitVersionOf(s.repo + "/" + s.path, VersionText(s));
    hide SplitVersion, SplitLines, PrintVersion, ParseLines;
  }

  lemma SrcAssembles(s: Src, raw: string)
    requires Unambiguous(s) && raw == PrintSrc(s)
    ensures Assemble(raw, s.repo + "/" + s.path, VersionText(s), s.fragment) == RefOf(s)
  {
    hide First, SplitLines, PrintVersion, ParseLines, RepoId, PrintSrc, PrintBody;
    CutsHead(s.repo, s.path);
    if s.version.Some? {
      CutsVersion(s.version.value);
      AssembleParts(raw, s.repo, s.path, s.version.value, s.fragment);
    }
  }

  lemma AssembleParts(raw: string, repo: string, path: string, v: Version, fragment: Option<string>)
    requires repo != "" && '/' !in repo && path != "" && v.commit != "" && (v.blob.Some? ==> v.blob.value != "")
    requires ':' !in v.commit
    ensures var r := Assemble(raw, repo + "/" + path, Some(PrintVersion(v)), fragment);
            && r.kind == SourceCode && r.repoId == repo && r.path == path && r.commit == v.commit
            && r.blob == if v.blob.Some? then v.blob.value else ""
  {
    hide First, ParseLines, RepoId, PrintVersion;
    CutsHead(repo, path);
    CutsVersion(v);
  }

  // Parsing undoes printing, for any unambiguous parts.
  lemma SrcParsesPrint(s: Src)
    requires Unambiguous(s)
    ensures IsPrefix(SRC_SCHEME, PrintSrc(s)) && ClassifySrc(PrintSrc(s)) == RefOf(s)
  {
    SrcTail(PrintBody(s) + if s.fragment.Some? then "#" + s.fragment.value else "");
    SrcSplits(s);
    SrcAssembles(s, PrintSrc(s));
    hide Assemble, SplitLines, SplitVersion, PrintBody, RefOf;
  }

  lemma CutsVersion(v: Version)
    requires ':' !in v.commit
    ensures var printed := PrintVersion(v);
            && First(printed, ':') == |v.commit| && printed[..|v.commit|] == v.commit
            && (v.blob.Some? <==> |v.commit| < |printed|)
            && (v.blob.Some? ==> printed[|v.commit| + 1..] == v.blob.value)
  {
    var printed := PrintVersion(v);
    if v.blob.Some? {
      assert printed[..|v.commit|] == v.commit && printed[|v.commit|] == ':';
      FirstIs(printed, ':', |v.commit|);
    } else {
      assert printed == v.commit;
      NoFirst(printed, ':');
    }
  }

  /** The parts a src:// ref is read as. */
  function Parts(raw: string): Src
    requires IsPrefix(SRC_SCHEME, raw)
  {
    var (body, fragment) := SplitLines(raw[|SRC_SCHEME|..]);
    var (head, version) := SplitVersion(body);
    var slash := First(head, '/');
    Src(head[..slash], if slash < |head| then head[slash + 1..] else "",
        if version.None? then None else Some(ReadVersion(version.value)), fragment)
  }

  lemma SplitLinesJoin(rest: string)
    ensures var (body, fragment) := SplitLines(rest);
            && rest == body + (if fragment.Some? then "#" + fragment.value else "")
            && (fragment.Some? ==> ParseLines(fragment.value).Some?)
            && (fragment.None? ==> body == rest)
  {
    var i := Last(rest, '#');
    assert i < |rest| ==> rest == rest[..i] + ("#" + rest[i + 1..]);
    assert rest + "" == rest;
  }

  lemma SplitVersionJoin(rest: string)
    ensures var (head, version) := SplitVersion(rest);
            && rest == head + (if version.Some? then "@" + version.value else "")
            && (version.Some? ==> '@' !in version.value)
            && (version.None? ==> '@' !in head)
  {
    var i := Last(rest, '@');
    assert i < |rest| ==> rest == rest[..i] + ("@" + rest[i + 1..]);
    assert rest + "" == rest;
  }

  /** A version's text, read. */
  function ReadVersion(v: string): Version {
    var colon := First(v, ':');
    Version(v[..colon], if colon < |v| then Some(v[colon + 1..]) else None)
  }

  lemma PrintCutVersion(v: string)
    ensures v == PrintVersion(ReadVersion(v))
  {
    var colon := First(v, ':');
    if colon < |v| {
      assert v == v[..colon] + (":" + v[colon + 1..]);
    } else {
      assert v[..colon] + "" == v;
    }
  }

  lemma PrintCutHead(head: string)
    requires First(head, '/') < |head|
    ensures var slash := First(head, '/'); head == head[..slash] + "/" + head[slash + 1..]
  {
    JoinAt(head, First(head, '/'));
  }

  lemma JoinAt(s: string, i: nat)
    requires i < |s| && s[i] == '/'
    ensures s == s[..i] + "/" + s[i + 1..]
  {
  }

  lemma PartsPrint(raw: string)
    requires IsPrefix(SRC_SCHEME, raw)
    requires var (body, fragment) := SplitLines(raw[|SRC_SCHEME|..]); First(SplitVersion(body).0, '/') < |SplitVersion(body).0|
    ensures PrintSrc(Parts(raw)) == raw
    ensures PrintBody(Parts(raw)) == SplitLines(raw[|SRC_SCHEME|..]).0
  {
    hide SplitLines, SplitVersion, First, PrintVersion, ReadVersion;
    var tail := raw[|SRC_SCHEME|..];
    var (body, fragment) := SplitLines(tail);
    var (head, version) := SplitVersion(body);
    SplitLinesJoin(tail);
    SplitVersionJoin(body);
    PrintCutHead(head);
    if version.Some? { PrintCutVersion(version.value); }
    assert raw == SRC_SCHEME + tail;
    assert PrintBody(Parts(raw)) == head + if version.Some? then "@" + version.value else "";
  }

  lemma PartsUnambiguous(raw: string)
    requires IsPrefix(SRC_SCHEME, raw) && ClassifySrc(raw).kind == SourceCode
    ensures Unambiguous(Parts(raw)) && PrintSrc(Parts(raw)) == raw
  {
    var (body, fragment) := SplitLines(raw[|SRC_SCHEME|..]);
    var (head, version) := SplitVersion(body);
    PartsPrint(raw);
    SplitLinesJoin(raw[|SRC_SCHEME|..]);
    SplitVersionJoin(body);
    AssembledParts(raw, head, version, fragment);
    hide SplitLines, SplitVersion, PrintSrc, PrintBody, ParseLines, ReadVersion, First, Assemble;
    assert fragment.None? ==> SplitLines(PrintBody(Parts(raw))).1.None?;
  }

  // What is accepted has its parts clean.
  lemma AssembledParts(raw: string, head: string, version: Option<string>, fragment: Option<string>)
    requires Assemble(raw, head, version, fragment).kind == SourceCode
    requires (version.Some? ==> '@' !in version.value) && (version.None? ==> '@' !in head)
    ensures var slash := First(head, '/');
            && 0 < slash < |head| && slash + 1 < |head| && '/' !in head[..slash]
            && (version.None? ==> '@' !in head[..slash] && '@' !in head[slash + 1..])
    ensures version.Some? ==>
              var v := ReadVersion(version.value);
              && v.commit != "" && ':' !in v.commit && '@' !in v.commit
              && (v.blob.Some? ==> v.blob.value != "" && '@' !in v.blob.value)
  {
    CutHeadParts(head);
    if version.Some? { ReadVersionParts(version.value); }
    hide ParseLines, RepoId, ReadVersion;
  }

  lemma CutHeadParts(head: string)
    ensures var slash := First(head, '/');
            && '/' !in head[..slash]
            && ('@' !in head && slash < |head| ==> '@' !in head[..slash] && '@' !in head[slash + 1..])
  {
  }

  lemma ReadVersionParts(v: string)
    requires '@' !in v
    ensures var r := ReadVersion(v);
            && ':' !in r.commit && '@' !in r.commit && (r.blob.Some? ==> '@' !in r.blob.value)
            && r.commit == v[..First(v, ':')]
            && (r.blob.Some? <==> First(v, ':') < |v|)
            && (r.blob.Some? ==> r.blob.value == v[First(v, ':') + 1..])
  {
  }

  lemma ReadsPrinted(v: Version)
    requires ':' !in v.commit
    ensures ReadVersion(PrintVersion(v)) == v
  {
    CutsVersion(v);
  }

  lemma PartsOfPrint(s: Src)
    requires Unambiguous(s)
    ensures IsPrefix(SRC_SCHEME, PrintSrc(s)) && Parts(PrintSrc(s)) == s
  {
    SrcTail(PrintBody(s) + if s.fragment.Some? then "#" + s.fragment.value else "");
    SrcSplits(s);
    CutsHead(s.repo, s.path);
    if s.version.Some? { ReadsPrinted(s.version.value); }
    hide First, SplitLines, SplitVersion, PrintVersion, PrintBody, ReadVersion;
    assert Parts(PrintSrc(s)).version == s.version && Parts(PrintSrc(s)).fragment == s.fragment;
    assert Parts(PrintSrc(s)).repo == s.repo && Parts(PrintSrc(s)).path == s.path;
  }

  // The parser accepts exactly the refs that are unambiguous parts printed, and reads them as
  // those parts, which are the only ones.
  lemma SrcAccepted(raw: string)
    requires IsPrefix(SRC_SCHEME, raw)
    ensures ClassifySrc(raw).kind == SourceCode <==> exists s :: Unambiguous(s) && PrintSrc(s) == raw
    ensures forall s :: Unambiguous(s) && PrintSrc(s) == raw ==> ClassifySrc(raw) == RefOf(s) && s == Parts(raw)
    ensures ClassifySrc(raw).kind != SourceCode ==> ClassifySrc(raw) == BadRef(raw)
  {
    hide Unambiguous, PrintSrc, Parts, RefOf;
    if ClassifySrc(raw).kind == SourceCode {
      PartsUnambiguous(raw);
    }
    forall s | Unambiguous(s) && PrintSrc(s) == raw
      ensures ClassifySrc(raw) == RefOf(s) && s == Parts(raw) && ClassifySrc(raw).kind == SourceCode
    {
      SrcParsesPrint(s);
      PartsOfPrint(s);
      assert RefOf(s).kind == SourceCode by { RefOfKind(s); }
    }
  }

  lemma RefOfKind(s: Src)
    ensures RefOf(s).kind == SourceCode
  {
  }

  /** A line range as knomit writes it. */
  function Range(first: string, last: Option<string>): string {
    if last.Some? then first + "-" + last.value else first
  }

  lemma RangeParses(first: string, last: Option<string>)
    requires Digits(first) && (last.Some? ==> Digits(last.value))
    ensures ParseLines("L" + Range(first, last)) == Some(Range(first, last))
  {
    var range := Range(first, last);
    assert ("L" + range)[1..] == range && IsPrefix("L", "L" + range);
    if last.Some? {
      assert range[..|first|] == first && range[|first| + 1..] == last.value;
      FirstIs(range, '-', |first|);
      assert last.value[..1][0] == last.value[0];
    } else {
      NoFirst(range, '-');
    }
  }

  predicate Hash(s: string) {
    |s| == 40 && LowerHex(s)
  }

  // A full citation reads back as it was written, whatever its path holds: '@', '#L5', ':' or '/'.
  lemma FullSrcRoundTrip(repo: string, path: string, commit: string, blob: string, lines: Option<string>)
    requires repo != "" && '/' !in repo && path != "" && Hash(commit) && Hash(blob)
    requires lines.Some? ==> ParseLines("L" + lines.value) == Some(lines.value)
    ensures var raw := SRC_SCHEME + (repo + "/" + path + ("@" + (commit + (":" + blob))) + if lines.Some? then "#" + ("L" + lines.value) else "");
            && IsPrefix(SRC_SCHEME, raw)
            && ClassifySrc(raw) == Ref(raw, SourceCode, repo, path, commit, blob, if lines.Some? then lines.value else "", !RepoId(repo))
  {
    var s := Src(repo, path, Some(Version(commit, Some(blob))), if lines.Some? then Some("L" + lines.value) else None);
    if lines.None? { VersionIsNoRange(repo + "/" + path, commit, blob); }
    assert ':' !in commit && '@' !in commit && '@' !in blob;
    assert PrintBody(s) == repo + "/" + path + ("@" + (commit + (":" + blob)));
    hide SplitLines, ParseLines, ClassifySrc;
    assert Unambiguous(s);
    SrcParsesPrint(s);
  }

  lemma AtIsNoLineChar(rest: string, i: nat, k: nat)
    requires i < k < |rest| && rest[k] == '@'
    ensures !LineText(rest[i + 1..])
  {
    assert rest[i + 1..][k - i - 1] == '@';
  }

  // The version that ends a citation keeps a '#' in its path from being taken for a line range.
  lemma VersionIsNoRange(head: string, commit: string, blob: string)
    requires Hash(commit) && Hash(blob)
    ensures SplitLines(head + ("@" + (commit + (":" + blob)))).1.None?
  {
    var tail := "@" + (commit + (":" + blob));
    var rest := head + tail;
    var i := Last(rest, '#');
    assert forall k :: 0 <= k < |tail| ==> tail[k] != '#';
    assert forall k :: |head| <= k < |rest| ==> rest[k] == tail[k - |head|];
    if i < |rest| && ParseLines(rest[i + 1..]).Some? {
      LinesNoHash(rest[i + 1..]);
      AtIsNoLineChar(rest, i, |head|);
      assert false;
    }
  }

  // ---------- every kind ----------

  function ClassifyRef(raw: string, localRepoId: string): Ref {
    if raw == "" then BadRef(raw)
    else if IsPrefix(KB_SCHEME, raw) then
      match ParseKbPath(raw)
      case Qualified(id, rel) =>
        Ref(raw, if localRepoId != "" && id == localRepoId then LocalFact else ForeignFact, id, Lower(rel), "", "", "", false)
      case _ => BadRef(raw)
    else if IsPrefix(SRC_SCHEME, raw) then ClassifySrc(raw)
    else if HasScheme(raw) then Ref(raw, ExternalUrl, "", "", "", "", "", false)
    else Ref(raw, LocalFact, localRepoId, Lower(raw), "", "", "", false)
  }

  predicate Local(raw: string, id: string) {
    ClassifyRef(raw, id).kind == LocalFact
  }

  function Target(raw: string, id: string): string {
    ClassifyRef(raw, id).path
  }

  // A local ref's target is a non-empty lower-case path, and its canonical form is local with
  // the same target.
  lemma LocalTarget(raw: string, id: string)
    requires Local(raw, id)
    ensures Target(raw, id) != "" && Lower(Target(raw, id)) == Target(raw, id)
  {
    if IsPrefix(KB_SCHEME, raw) {
      assert ParseKbPath(raw).Qualified?;
      LowerTwice(ParseKbPath(raw).rel);
    } else {
      LowerTwice(raw);
    }
  }

  lemma CanonicalIsLocal(path: string, id: string)
    requires RepoId(id) && path != "" && Lower(path) == path
    ensures Local(QualifyKbPath(id, path), id) && Target(QualifyKbPath(id, path), id) == path
  {
    KbTail(id, path);
    KbRoundTrip(id, path);
  }
}
