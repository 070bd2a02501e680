/** Printing and parsing documentation routes with version and locale prefixes
    (apps/docs/shared/docsRouting.js), down to the characters. */
module DocsRouting {
  import opened Options
  import opened Sequences

  // ----- strings

  const WHITE: set<char> := {' ', '\t', '\n', '\r', '\U{000B}', '\U{000C}', '\U{00A0}', '\U{1680}', '\U{2000}', '\U{2001}',
                            '\U{2002}', '\U{2003}', '\U{2004}', '\U{2005}', '\U{2006}', '\U{2007}', '\U{2008}', '\U{2009}',
                            '\U{200A}', '\U{2028}', '\U{2029}', '\U{202F}', '\U{205F}', '\U{3000}', '\U{FEFF}'}

  function DropWhile(s: string, cs: set<char>): (r: string)
    ensures |r| <= |s| && (r != [] ==> r[0] !in cs)
    ensures s != [] && s[0] in cs ==> |r| < |s|
    ensures s == [] || s[0] !in cs ==> r == s
  {
    if s != [] && s[0] in cs then DropWhile(s[1..], cs) else s
  }

  function DropEnd(s: string, cs: set<char>): (r: string)
    ensures |r| <= |s| && r <= s && (r != [] ==> r[|r| - 1] !in cs)
    ensures s != [] && s[|s| - 1] in cs ==> |r| < |s|
    ensures s == [] || s[|s| - 1] !in cs ==> r == s
  {
    if s != [] && s[|s| - 1] in cs then DropEnd(s[..|s| - 1], cs) else s
  }

  function Strip(s: string, cs: set<char>): string {
    DropEnd(DropWhile(s, cs), cs)
  }

  predicate Bare(s: string, cs: set<char>) {
    s == [] || (s[0] !in cs && s[|s| - 1] !in cs)
  }

  lemma StripBare(s: string, cs: set<char>)
    ensures Bare(Strip(s, cs), cs) && (Strip(s, cs) == s <==> Bare(s, cs))
    ensures !Bare(s, cs) ==> |Strip(s, cs)| < |s|
  {
    var t := DropWhile(s, cs);
    var r := DropEnd(t, cs);
    if r != [] {
      assert r[0] == t[0];
    }
  }

  /** `normalizeDocPath` */
  function Normalize(path: string): string {
    Strip(Strip(path, WHITE), {'/'})
  }

  function AddChar(pieces: seq<string>, c: char): (r: seq<string>)
    requires pieces != []
    ensures r != []
  {
    if c == '/' then pieces + [""] else pieces[..|pieces| - 1] + [pieces[|pieces| - 1] + [c]]
  }

  /** All pieces between slashes. */
  function Pieces(s: string): (ps: seq<string>)
    ensures ps != []
  {
    if s == [] then [""] else AddChar(Pieces(s[..|s| - 1]), s[|s| - 1])
  }

  function NonEmpty(ps: seq<string>): (r: seq<string>)
    ensures forall p :: p in r ==> p != "" && p in ps
  {
    if ps == [] then []
    else NonEmpty(ps[..|ps| - 1]) + if ps[|ps| - 1] == "" then [] else [ps[|ps| - 1]]
  }

  /** `splitRouteSegments` */
  function Segments(path: string): seq<string> {
    NonEmpty(Pieces(Normalize(path)))
  }

  function Join(segments: seq<string>): string {
    if segments == [] then ""
    else if |segments| == 1 then segments[0]
    else Join(segments[..|segments| - 1]) + "/" + segments[|segments| - 1]
  }

  predicate Segment(s: string) {
    s != "" && '/' !in s
  }

  predicate AllSegments(ps: seq<string>) {
    forall i :: 0 <= i < |ps| ==> Segment(ps[i])
  }

  lemma AddCharToOne(piece: string, c: char)
    requires c != '/'
    ensures AddChar([piece], c) == [piece + [c]]
  {
  }

  lemma {:induction false} PiecesOfSegment(s: string)
    requires '/' !in s
    ensures Pieces(s) == [s]
  {
    if s != [] {
      hide AddChar, Pieces;
      var front, c := s[..|s| - 1], s[|s| - 1];
      PiecesOfSegment(front);
      PiecesSnoc(front, c);
      AddCharToOne(front, c);
      SplitLast(s);
    }
  }

  lemma AddCharAppend(a: seq<string>, b: seq<string>, c: char)
    requires b != []
    ensures AddChar(a + b, c) == a + AddChar(b, c)
  {
    assert (a + b)[..|a + b| - 1] == a + b[..|b| - 1];
  }

  lemma PiecesSnoc(s: string, c: char)
    ensures Pieces(s + [c]) == AddChar(Pieces(s), c)
  {
    assert (s + [c])[..|s|] == s;
  }

  lemma {:induction false} PiecesAppend(a: string, b: string)
    ensures Pieces(a + "/" + b) == Pieces(a) + Pieces(b)
  {
    if b == [] {
      assert a + "/" + b == a + ['/'];
      PiecesSnoc(a, '/');
    } else {
      hide AddChar, Pieces;
      var front, c := b[..|b| - 1], b[|b| - 1];
      PiecesAppend(a, front);
      AddCharAppend(Pieces(a), Pieces(front), c);
      PiecesSnoc(a + "/" + front, c);
      PiecesSnoc(front, c);
      SplitLast(b);
      Associative(a + "/", front, [c]);
    }
  }

  lemma {:induction false} PiecesOfJoin(segments: seq<string>)
    requires segments != [] && AllSegments(segments)
    ensures Pieces(Join(segments)) == segments
  {
    hide Pieces;
    if |segments| == 1 {
      PiecesOfSegment(segments[0]);
      assert segments == [segments[0]];
    } else {
      var n := |segments| - 1;
      PiecesOfJoin(segments[..n]);
      PiecesAppend(Join(segments[..n]), segments[n]);
      PiecesOfSegment(segments[n]);
      assert segments == segments[..n] + [segments[n]];
    }
  }

  lemma {:induction false} NonEmptyKeeps(ps: seq<string>)
    requires AllSegments(ps)
    ensures NonEmpty(ps) == ps
  {
    if ps != [] {
      NonEmptyKeeps(ps[..|ps| - 1]);
      assert ps == ps[..|ps| - 1] + [ps[|ps| - 1]];
    }
  }

  lemma {:induction false} PiecesSlashFree(s: string)
    ensures forall i :: 0 <= i < |Pieces(s)| ==> '/' !in Pieces(s)[i]
  {
    if s != [] {
      PiecesSlashFree(s[..|s| - 1]);
    }
  }

  lemma {:induction false} NonEmptySegments(ps: seq<string>)
    requires forall i :: 0 <= i < |ps| ==> '/' !in ps[i]
    ensures AllSegments(NonEmpty(ps))
  {
    if ps != [] {
      NonEmptySegments(ps[..|ps| - 1]);
    }
  }

  lemma SegmentsAre(path: string)
    ensures AllSegments(Segments(path))
  {
    PiecesSlashFree(Normalize(path));
    NonEmptySegments(Pieces(Normalize(path)));
  }

  lemma {:induction false} JoinEnds(segments: seq<string>)
    requires segments != [] && AllSegments(segments)
    ensures Join(segments) != [] && Join(segments)[0] == segments[0][0]
    ensures var last := segments[|segments| - 1]; Join(segments)[|Join(segments)| - 1] == last[|last| - 1]
  {
    if |segments| > 1 {
      JoinEnds(segments[..|segments| - 1]);
    }
  }

  /** No white space at the outer ends of the segments. */
  predicate CleanEnds(segments: seq<string>) {
    segments == [] ||
    (segments[0] != "" && segments[|segments| - 1] != ""
     && segments[0][0] !in WHITE && segments[|segments| - 1][|segments[|segments| - 1]| - 1] !in WHITE)
  }

  /** Joined segments are split again into the same segments exactly when their ends are clean. */
  lemma SegmentsOfJoin(segments: seq<string>)
    requires AllSegments(segments)
    ensures CleanEnds(segments) ==> Segments(Join(segments)) == segments && Normalize(Join(segments)) == Join(segments)
    ensures !CleanEnds(segments) ==> |Normalize(Join(segments))| < |Join(segments)|
  {
    var s := Join(segments);
    if segments == [] {
      assert Normalize(s) == "";
    } else {
      JoinEnds(segments);
      var first, last := segments[0], segments[|segments| - 1];
      assert first[0] in first && last[|last| - 1] in last;
      StripBare(s, WHITE);
      StripBare(Strip(s, WHITE), {'/'});
      if CleanEnds(segments) {
        PiecesOfJoin(segments);
        NonEmptyKeeps(segments);
      }
    }
  }

  // ----- configuration

  datatype Feature = Feature(enabled: bool, current: Option<string>, values: seq<string>)

  function AddUnique(s: seq<string>, x: string): (r: seq<string>)
    ensures forall y :: y in r <==> y in s || y == x
    ensures NoDuplicates(s) ==> NoDuplicates(r)
  {
    if x in s then s else s + [x]
  }

  /** `normalizeUniqueSegments` */
  function UniqueTrimmed(values: seq<string>): (r: seq<string>)
    ensures NoDuplicates(r) && forall v :: v in r ==> v != "" && Bare(v, WHITE)
  {
    if values == [] then []
    else
      var v := Strip(values[|values| - 1], WHITE);
      StripBare(values[|values| - 1], WHITE);
      var front := UniqueTrimmed(values[..|values| - 1]);
      if v == "" then front else AddUnique(front, v)
  }

  /** These are the values without white space around them that are not empty, and the first one that
      is not comes first. */
  lemma {:induction false} UniqueTrimmedAre(values: seq<string>)
    ensures forall v :: v in UniqueTrimmed(values) <==> v != "" && exists i :: 0 <= i < |values| && Strip(values[i], WHITE) == v
    ensures UniqueTrimmed(values) != [] ==>
              exists i :: 0 <= i < |values| && Strip(values[i], WHITE) == UniqueTrimmed(values)[0]
                          && forall j :: 0 <= j < i ==> Strip(values[j], WHITE) == ""
  {
    hide Strip;
    if values != [] {
      var n := |values| - 1;
      var front := UniqueTrimmed(values[..n]);
      UniqueTrimmedAre(values[..n]);
      assert forall i :: 0 <= i < n ==> values[..n][i] == values[i];
      if UniqueTrimmed(values) != [] {
        if front != [] {
          var i: nat :| i < n && Strip(values[..n][i], WHITE) == front[0] && forall j :: 0 <= j < i ==> Strip(values[..n][j], WHITE) == "";
          assert Strip(values[i], WHITE) == UniqueTrimmed(values)[0];
        } else {
          forall j | 0 <= j < n
            ensures Strip(values[j], WHITE) == ""
          {
            assert Strip(values[..n][j], WHITE) !in front;
          }
          assert Strip(values[n], WHITE) == UniqueTrimmed(values)[0];
        }
      }
    }
  }

  /** `getVersioningState`, `getI18nState` */
  function FeatureOf(enabled: bool, current: string, values: seq<string>): Feature {
    var vs := UniqueTrimmed(values);
    Feature(enabled, if Strip(current, WHITE) != "" then Some(Strip(current, WHITE)) else if vs != [] then Some(vs[0]) else None, vs)
  }

  datatype Config = Config(versioning: Feature, i18n: Feature)

  function Enabled(f: Feature): seq<string> {
    if f.enabled then f.values else []
  }

  datatype Issue = NoValues(versions: bool) | NoCurrent(versions: bool) | CurrentUnknown(versions: bool)
                 | Overlap | Conflict

  function FeatureIssues(f: Feature, versions: bool): seq<Issue> {
    if !f.enabled then []
    else
      (if f.values == [] then [NoValues(versions)] else [])
      + (if f.current.None? then [NoCurrent(versions)]
         else if f.current.value !in f.values then [CurrentUnknown(versions)] else [])
  }

  predicate Overlaps(a: seq<string>, b: seq<string>) {
    exists x :: x in a && x in b
  }

  /** The first segments of the documents. */
  function TopLevel(paths: seq<string>): seq<string> {
    if paths == [] then []
    else
      var segments := NonEmpty(Pieces(paths[|paths| - 1]));
      var front := TopLevel(paths[..|paths| - 1]);
      if segments == [] then front else AddUnique(front, segments[0])
  }

  /** `getDocumentationFeatureValidationIssues` */
  function Issues(c: Config, paths: seq<string>): seq<Issue> {
    FeatureIssues(c.versioning, true) + FeatureIssues(c.i18n, false)
    + (if c.versioning.enabled && c.i18n.enabled && Overlaps(c.versioning.values, c.i18n.values) then [Overlap] else [])
    + (if Overlaps(TopLevel(paths), Enabled(c.versioning) + Enabled(c.i18n)) then [Conflict] else [])
  }

  /** A configuration without issues, whose prefixes hold no slash. */
  ghost predicate Usable(c: Config) {
    && NoDuplicates(c.versioning.values) && NoDuplicates(c.i18n.values)
    && (forall v :: v in Enabled(c.versioning) + Enabled(c.i18n) ==> Segment(v) && Bare(v, WHITE))
    && !Overlaps(Enabled(c.versioning), Enabled(c.i18n))
  }

  lemma {:induction false} TopLevelHas(paths: seq<string>, path: string)
    requires path in paths && NonEmpty(Pieces(path)) != []
    ensures NonEmpty(Pieces(path))[0] in TopLevel(paths)
  {
    if path != paths[|paths| - 1] {
      TopLevelHas(paths[..|paths| - 1], path);
    }
  }

  /** The document begins with this segment. */
  predicate Begins(path: string, x: string) {
    NonEmpty(Pieces(path)) != [] && NonEmpty(Pieces(path))[0] == x
  }

  lemma {:induction false} TopLevelAre(paths: seq<string>, x: string)
    ensures x in TopLevel(paths) <==> exists path :: path in paths && Begins(path, x)
  {
    if paths != [] {
      var n := |paths| - 1;
      TopLevelAre(paths[..n], x);
      hide NonEmpty, Pieces;
      assert forall path :: path in paths <==> path in paths[..n] || path == paths[n];
      assert x in TopLevel(paths) <==> x in TopLevel(paths[..n]) || Begins(paths[n], x);
    }
  }

  lemma FeatureIssuesIff(f: Feature, versions: bool, issue: Issue)
    ensures issue in FeatureIssues(f, versions) <==>
              || (issue == NoValues(versions) && f.enabled && f.values == [])
              || (issue == NoCurrent(versions) && f.enabled && f.current.None?)
              || (issue == CurrentUnknown(versions) && f.enabled && f.current.Some? && f.current.value !in f.values)
  {
  }

  /** Exactly the issues there are: an enabled feature without values, without a current one or with
      one that is not among them; an enabled version that is an enabled locale; and a document that
      begins with an enabled prefix. */
  lemma IssuesIff(c: Config, paths: seq<string>, versions: bool)
    ensures var f := if versions then c.versioning else c.i18n;
            && (NoValues(versions) in Issues(c, paths) <==> f.enabled && f.values == [])
            && (NoCurrent(versions) in Issues(c, paths) <==> f.enabled && f.current.None?)
            && (CurrentUnknown(versions) in Issues(c, paths) <==> f.enabled && f.current.Some? && f.current.value !in f.values)
    ensures Overlap in Issues(c, paths) <==>
              c.versioning.enabled && c.i18n.enabled && exists x :: x in c.versioning.values && x in c.i18n.values
    ensures Conflict in Issues(c, paths) <==>
              exists path, x :: path in paths && Begins(path, x)
                                && ((c.versioning.enabled && x in c.versioning.values) || (c.i18n.enabled && x in c.i18n.values))
  {
    hide Issues, TopLevel, Begins, Enabled;
    ConflictIff(c, paths);
    IssuesAre(c, paths, NoValues(versions));
    IssuesAre(c, paths, NoCurrent(versions));
    IssuesAre(c, paths, CurrentUnknown(versions));
    IssuesAre(c, paths, Overlap);
    IssuesAre(c, paths, Conflict);
  }

  lemma IssuesAre(c: Config, paths: seq<string>, issue: Issue)
    ensures issue in Issues(c, paths) <==> IsIssue(c, paths, issue)
  {
    hide Issues, FeatureIssues, TopLevel, Overlaps, Enabled;
    IssuesParts(c, paths, issue);
    FeatureIssuesIff(c.versioning, true, issue);
    FeatureIssuesIff(c.i18n, false, issue);
  }

  predicate IsIssue(c: Config, paths: seq<string>, issue: Issue) {
    match issue
    case NoValues(versions) => (var f := if versions then c.versioning else c.i18n; f.enabled && f.values == [])
    case NoCurrent(versions) => (var f := if versions then c.versioning else c.i18n; f.enabled && f.current.None?)
    case CurrentUnknown(versions) =>
      (var f := if versions then c.versioning else c.i18n; f.enabled && f.current.Some? && f.current.value !in f.values)
    case Overlap => c.versioning.enabled && c.i18n.enabled && Overlaps(c.versioning.values, c.i18n.values)
    case Conflict => Overlaps(TopLevel(paths), Enabled(c.versioning) + Enabled(c.i18n))
  }

  lemma IssuesParts(c: Config, paths: seq<string>, issue: Issue)
    ensures issue in Issues(c, paths) <==>
              || issue in FeatureIssues(c.versioning, true) || issue in FeatureIssues(c.i18n, false)
              || (issue == Overlap && c.versioning.enabled && c.i18n.enabled && Overlaps(c.versioning.values, c.i18n.values))
              || (issue == Conflict && Overlaps(TopLevel(paths), Enabled(c.versioning) + Enabled(c.i18n)))
  {
    hide FeatureIssues, TopLevel, Overlaps, Enabled;
    var a, b := FeatureIssues(c.versioning, true), FeatureIssues(c.i18n, false);
    var d := if c.versioning.enabled && c.i18n.enabled && Overlaps(c.versioning.values, c.i18n.values) then [Overlap] else [];
    var e := if Overlaps(TopLevel(paths), Enabled(c.versioning) + Enabled(c.i18n)) then [Conflict] else [];
    assert Issues(c, paths) == a + b + d + e;
    assert issue in d <==> issue == Overlap && c.versioning.enabled && c.i18n.enabled && Overlaps(c.versioning.values, c.i18n.values);
    assert issue in e <==> issue == Conflict && Overlaps(TopLevel(paths), Enabled(c.versioning) + Enabled(c.i18n));
  }

  lemma ConflictIff(c: Config, paths: seq<string>)
    ensures Overlaps(TopLevel(paths), Enabled(c.versioning) + Enabled(c.i18n)) <==>
              exists path, x :: path in paths && Begins(path, x)
                                && ((c.versioning.enabled && x in c.versioning.values) || (c.i18n.enabled && x in c.i18n.values))
  {
    hide TopLevel, Begins;
    var reserved := Enabled(c.versioning) + Enabled(c.i18n);
    forall x
      ensures x in TopLevel(paths) <==> exists path :: path in paths && Begins(path, x)
      ensures x in reserved <==> (c.versioning.enabled && x in c.versioning.values) || (c.i18n.enabled && x in c.i18n.values)
    {
      TopLevelAre(paths, x);
    }
    if x :| x in TopLevel(paths) && x in reserved {
      var path :| path in paths && Begins(path, x);
    }
    if path, x :| path in paths && Begins(path, x) && x in reserved {
      assert x in TopLevel(paths);
    }
  }

  /** No issues: usable, and no document of the tree begins with an enabled prefix. */
  lemma NoIssuesUsable(c: Config, paths: seq<string>, current: string, versions: seq<string>, locale: string, locales: seq<string>)
    requires c == Config(FeatureOf(c.versioning.enabled, current, versions), FeatureOf(c.i18n.enabled, locale, locales))
    requires Issues(c, paths) == []
    requires forall v :: v in Enabled(c.versioning) + Enabled(c.i18n) ==> '/' !in v
    ensures Usable(c)
    ensures forall path :: path in paths && NonEmpty(Pieces(path)) != [] ==>
              NonEmpty(Pieces(path))[0] !in Enabled(c.versioning) && NonEmpty(Pieces(path))[0] !in Enabled(c.i18n)
    ensures c.versioning.enabled ==> c.versioning.current.Some? && c.versioning.current.value in c.versioning.values
    ensures c.i18n.enabled ==> c.i18n.current.Some? && c.i18n.current.value in c.i18n.values
  {
    forall path | path in paths && NonEmpty(Pieces(path)) != []
      ensures NonEmpty(Pieces(path))[0] !in Enabled(c.versioning) && NonEmpty(Pieces(path))[0] !in Enabled(c.i18n)
    {
      TopLevelHas(paths, path);
    }
  }

  // ----- printing and parsing

  datatype Route = Route(path: string, version: Option<string>, locale: Option<string>)

  function Prefix(version: Option<string>, locale: Option<string>): seq<string> {
    (if version.Some? then [version.value] else []) + (if locale.Some? then [locale.value] else [])
  }

  /** `resolvePrefixSegments`; a missing choice falls back on the current one. */
  function ResolvePrefix(c: Config, includeVersion: bool, includeLocale: bool, version: Option<string>, locale: Option<string>): seq<string> {
    Prefix(if !includeVersion then None else if version.Some? && version.value != "" then version else c.versioning.current,
           if !includeLocale then None else if locale.Some? && locale.value != "" then locale else c.i18n.current)
  }

  /** A choice that is missing or empty falls back on the current one. */
  lemma ResolveFallsBack(c: Config, version: Option<string>, locale: Option<string>)
    ensures ResolvePrefix(c, true, true, version, locale) ==
            Prefix(if version == None || version == Some("") then c.versioning.current else version,
                   if locale == None || locale == Some("") then c.i18n.current else locale)
    ensures ResolvePrefix(c, false, false, version, locale) == []
  {
  }

  /** `buildDocsPath` */
  function BuildDocsPath(path: string, prefix: seq<string>): string {
    "/" + Join(["docs"] + prefix + Segments(Normalize(path)))
  }

  /** The part of a route after `/docs`. */
  function Slug(route: string): string {
    if |route| < 5 then ""
    else if |route| > 5 && route[5] == '/' then route[6..]
    else route[5..]
  }

  function ParseSegments(c: Config, segments: seq<string>): Route {
    var version := if segments != [] && segments[0] in Enabled(c.versioning) then Some(segments[0]) else None;
    var rest := if version.Some? then segments[1..] else segments;
    var locale := if rest != [] && rest[0] in Enabled(c.i18n) then Some(rest[0]) else None;
    Route(Join(if locale.Some? then rest[1..] else rest), version, locale)
  }

  /** `parseDocsRoutePath` */
  method ParseDocsRoutePath(c: Config, slug: string) returns (r: Route, explicit: bool)
    ensures r == ParseSegments(c, Segments(slug))
    ensures explicit <==> r.version.Some? || r.locale.Some?
  {
    hide Segments, Join;
    var segments := Segments(slug);
    var index := 0;
    var version, locale: Option<string> := None, None;
    if c.versioning.enabled && index < |segments| && segments[index] in c.versioning.values {
      version := Some(segments[index]);
      index := index + 1;
    }
    assert segments[index..] == if version.Some? then segments[1..] else segments;
    ghost var rest := segments[index..];
    if c.i18n.enabled && index < |segments| && segments[index] in c.i18n.values {
      locale := Some(segments[index]);
      index := index + 1;
    }
    assert segments[index..] == if locale.Some? then rest[1..] else rest;
    r := Route(Join(segments[index..]), version, locale);
    explicit := index > 0;
  }

  /** A document whose first segment is no enabled prefix. */
  predicate Unambiguous(c: Config, segments: seq<string>) {
    segments == [] || (segments[0] !in Enabled(c.versioning) && segments[0] !in Enabled(c.i18n))
  }

  predicate Choice(f: Feature, x: Option<string>) {
    x.Some? ==> x.value in Enabled(f)
  }

  /** Segments after a chosen prefix parse back to the segments and that prefix. */
  lemma ParsePrefixed(c: Config, segments: seq<string>, version: Option<string>, locale: Option<string>)
    requires Usable(c) && Unambiguous(c, segments) && Choice(c.versioning, version) && Choice(c.i18n, locale)
    ensures ParseSegments(c, Prefix(version, locale) + segments) == Route(Join(segments), version, locale)
  {
    var all := Prefix(version, locale) + segments;
    if version.Some? && locale.Some? {
      assert all[1..][1..] == segments;
    } else if version.Some? || locale.Some? {
      assert all[1..] == segments;
    } else {
      assert all == segments;
    }
  }

  lemma JoinDocs(rest: seq<string>)
    requires AllSegments(rest)
    ensures Slug("/" + Join(["docs"] + rest)) == Join(rest)
  {
    JoinCons("docs", rest);
    var route := "/" + Join(["docs"] + rest);
    if rest == [] {
      assert route == "/docs";
    } else {
      assert route == "/docs/" + Join(rest);
      assert route[6..] == Join(rest);
    }
  }

  lemma {:induction false} JoinCons(first: string, rest: seq<string>)
    ensures Join([first] + rest) == if rest == [] then first else first + "/" + Join(rest)
  {
    if |rest| > 1 {
      var n := |rest| - 1;
      assert ([first] + rest)[..n + 1] == [first] + rest[..n];
      JoinCons(first, rest[..n]);
      assert first + "/" + Join(rest[..n]) + "/" + rest[n] == first + "/" + (Join(rest[..n]) + "/" + rest[n]);
    }
  }

  /** No white space at the last end. */
  predicate CleanLast(segments: seq<string>) {
    segments == [] ||
    (segments[|segments| - 1] != "" && segments[|segments| - 1][|segments[|segments| - 1]| - 1] !in WHITE)
  }

  /** Where a route with these prefixes needs clean ends: a prefix covers the first one. */
  predicate CleanBehind(prefix: seq<string>, segments: seq<string>) {
    if prefix == [] then CleanEnds(segments) else CleanLast(segments)
  }

  lemma PrefixSegments(c: Config, prefix: seq<string>, segments: seq<string>)
    requires Usable(c) && forall p :: p in prefix ==> p in Enabled(c.versioning) + Enabled(c.i18n)
    requires AllSegments(segments)
    ensures AllSegments(prefix + segments) && (CleanEnds(prefix + segments) <==> CleanBehind(prefix, segments))
  {
    forall i | 0 <= i < |prefix|
      ensures Segment(prefix[i]) && Bare(prefix[i], WHITE)
    {
      assert prefix[i] in prefix;
    }
    assert prefix == [] ==> prefix + segments == segments;
    assert segments == [] ==> prefix + segments == prefix;
  }

  /** What was split off in front, and the rest. */
  lemma ParsedParts(c: Config, segments: seq<string>) returns (rest: seq<string>)
    ensures var r := ParseSegments(c, segments); segments == Prefix(r.version, r.locale) + rest && r.path == Join(rest)
  {
    var r := ParseSegments(c, segments);
    var behind := if r.version.Some? then segments[1..] else segments;
    rest := if r.locale.Some? then behind[1..] else behind;
  }

  /** Behind the same prefix, documents of the same text make routes of the same length. */
  lemma PrefixedLength(v: Option<string>, l: Option<string>, a: seq<string>, b: seq<string>)
    requires a != [] && b != [] && Join(a) == Join(b)
    ensures |Join(Prefix(v, l) + a)| == |Join(Prefix(v, l) + b)|
  {
    PrefixedJoin(v, l, a);
    PrefixedJoin(v, l, b);
  }

  lemma PrefixedJoin(v: Option<string>, l: Option<string>, s: seq<string>)
    requires s != []
    ensures |Join(Prefix(v, l) + s)| == (if v.Some? then |v.value| + 1 else 0) + (if l.Some? then |l.value| + 1 else 0) + |Join(s)|
  {
    hide Join;
    if l.Some? {
      JoinCons(l.value, s);
    }
    var behind := Prefix(None, l) + s;
    assert behind == if l.Some? then [l.value] + s else s;
    if v.Some? {
      JoinCons(v.value, behind);
      assert Prefix(v, l) + s == [v.value] + behind;
    }
  }

  /** A route parses to its document, and to exactly the version and locale it was built with,
      if and only if the ends of the document that no prefix covers are clean. */
  lemma RouteParsesBackIff(c: Config, path: string, version: Option<string>, locale: Option<string>)
    requires Usable(c) && Unambiguous(c, Segments(Normalize(path))) && Choice(c.versioning, version) && Choice(c.i18n, locale)
    ensures ParseSegments(c, Segments(Slug(BuildDocsPath(path, Prefix(version, locale)))))
         == Route(Join(Segments(Normalize(path))), version, locale)
         <==> CleanBehind(Prefix(version, locale), Segments(Normalize(path)))
  {
    hide Join, Segments, Normalize, ParseSegments, CleanEnds, CleanLast, AllSegments, Usable, Slug, Unambiguous, Pieces, NonEmpty;
    var segments := Segments(Normalize(path));
    var prefix := Prefix(version, locale);
    SegmentsAre(Normalize(path));
    PrefixSegments(c, prefix, segments);
    assert ["docs"] + prefix + segments == ["docs"] + (prefix + segments);
    JoinDocs(prefix + segments);
    SegmentsOfJoin(prefix + segments);
    if CleanBehind(prefix, segments) {
      ParsePrefixed(c, segments, version, locale);
    } else {
      TrimmedIsAnother(c, segments, version, locale);
    }
  }

  /** What is left of a route that loses white space is another route. */
  lemma TrimmedIsAnother(c: Config, segments: seq<string>, version: Option<string>, locale: Option<string>)
    requires AllSegments(segments) && !CleanBehind(Prefix(version, locale), segments)
    requires |Normalize(Join(Prefix(version, locale) + segments))| < |Join(Prefix(version, locale) + segments)|
    ensures ParseSegments(c, Segments(Join(Prefix(version, locale) + segments))) != Route(Join(segments), version, locale)
  {
    var s := Join(Prefix(version, locale) + segments);
    var found := Segments(s);
    var rest := ParsedParts(c, found);
    NotClean(Prefix(version, locale), segments);
    hide Join, Segments, Normalize, ParseSegments, CleanBehind, Pieces, NonEmpty;
    FoundLength(s);
    JoinEnds(segments);
    if ParseSegments(c, found) == Route(Join(segments), version, locale) {
      NoSegments(rest);
      PrefixedLength(version, locale, segments, rest);
      assert false;
    }
  }

  lemma NotClean(prefix: seq<string>, segments: seq<string>)
    requires !CleanBehind(prefix, segments)
    ensures segments != []
  {
  }

  lemma NoSegments(segments: seq<string>)
    ensures segments == [] ==> Join(segments) == ""
  {
  }

  lemma FoundLength(s: string)
    ensures |Join(Segments(s))| <= |Normalize(s)|
  {
    hide Join, Normalize;
    JoinNonEmpty(Pieces(Normalize(s)));
    JoinPieces(Normalize(s));
  }

  /** Every variant of a document parses back to the choice it was built for if and only if the
      document carries no white space at its ends. */
  lemma VariantsParseBackIff(c: Config, path: string)
    requires Usable(c) && Unambiguous(c, Segments(Normalize(path)))
    ensures (forall v, l :: IsChoice(c, v, l) ==>
               ParseSegments(c, Segments(Slug(RouteOf(path, v, l)))) == Route(Join(Segments(Normalize(path))), v, l))
            <==> CleanEnds(Segments(Normalize(path)))
  {
    hide Join, Segments, Normalize, ParseSegments, Usable, Slug, Unambiguous, BuildDocsPath;
    forall v, l | IsChoice(c, v, l)
      ensures ParseSegments(c, Segments(Slug(RouteOf(path, v, l)))) == Route(Join(Segments(Normalize(path))), v, l)
              <==> CleanBehind(Prefix(v, l), Segments(Normalize(path)))
    {
      RouteParsesBackIff(c, path, v, l);
    }
    assert IsChoice(c, None, None) && Prefix(None, None) == [];
  }

  /** A document that begins with white space is lost from its bare route, and only from that. */
  lemma WhiteDocument(c: Config, version: string)
    requires Usable(c) && version in Enabled(c.versioning) && Unambiguous(c, [" a"]) && Unambiguous(c, ["a"])
    ensures Segments(Normalize("/ / a")) == [" a"]
    ensures ParseSegments(c, Segments(Slug(BuildDocsPath("/ / a", [])))) == Route("a", None, None)
    ensures ParseSegments(c, Segments(Slug(BuildDocsPath("/ / a", [version])))) == Route(" a", Some(version), None)
  {
    WhiteSegments();
    WhiteRoutes(c, version);
    RouteParsesBackIff(c, "/ / a", Some(version), None);
  }

  lemma WhiteRoutes(c: Config, version: string)
    requires Unambiguous(c, ["a"]) && Segments(Normalize("/ / a")) == [" a"] && Segments(" a") == ["a"]
    ensures Prefix(Some(version), None) == [version] && CleanBehind([version], [" a"]) && Join([" a"]) == " a"
    ensures ParseSegments(c, Segments(Slug(BuildDocsPath("/ / a", [])))) == Route("a", None, None)
  {
    hide Segments, Normalize, Slug;
    assert Segment(" a") && Segment("a");
    assert ["docs"] + [] + [" a"] == ["docs"] + [" a"];
    JoinDocs([" a"]);
  }

  lemma WhiteSegments()
    ensures Segments(Normalize("/ / a")) == [" a"] && Segments(" a") == ["a"]
  {
    WhiteStripped();
    PiecesOfSegment(" a");
    PiecesOfSegment("a");
    hide Normalize, Pieces;
    NonEmptyKeeps([" a"]);
    NonEmptyKeeps(["a"]);
  }

  lemma WhiteStripped()
    ensures Normalize("/ / a") == " / a" && Normalize(" / a") == " a" && Normalize(" a") == "a"
  {
    hide Strip;
    assert "/ / a"[1..] == " / a" && " / a"[1..] == "/ a" && "/ a"[1..] == " a" && " a"[1..] == "a";
    DropNone("/ / a", WHITE);
    DropOne("/ / a", {'/'});
    DropOne(" / a", WHITE);
    DropOne("/ a", {'/'});
    DropOne(" a", WHITE);
    DropNone("a", {'/'});
  }

  lemma DropNone(s: string, cs: set<char>)
    requires s != "" && s[0] !in cs && s[|s| - 1] !in cs
    ensures Strip(s, cs) == s
  {
  }

  /** One character is dropped in front, nothing behind. */
  lemma DropOne(s: string, cs: set<char>)
    requires |s| >= 2 && s[0] in cs && s[1] !in cs && s[|s| - 1] !in cs
    ensures Strip(s, cs) == s[1..]
  {
    assert DropWhile(s, cs) == DropWhile(s[1..], cs);
  }

  /** Without a prefix the ends must be clean: otherwise the document found is another one. */
  lemma BareRouteParsesBackIff(c: Config, path: string)
    requires Usable(c) && Unambiguous(c, Segments(Normalize(path)))
    ensures var segments := Segments(Normalize(path));
            ParseSegments(c, Segments(Slug(BuildDocsPath(path, [])))).path == Join(segments) <==> CleanEnds(segments)
  {
    var segments := Segments(Normalize(path));
    if CleanEnds(segments) {
      assert Prefix(None, None) == [];
      RouteParsesBackIff(c, path, None, None);
    } else {
      SegmentsAre(Normalize(path));
      assert ["docs"] + [] + segments == ["docs"] + segments;
      JoinDocs(segments);
      SegmentsOfJoin(segments);
      var found := Segments(Join(segments));
      SegmentsAre(Join(segments));
      ParsedShorter(c, found);
      JoinNonEmpty(Pieces(Normalize(Join(segments))));
      JoinPieces(Normalize(Join(segments)));
    }
  }

  lemma {:induction false} JoinLength(segments: seq<string>, k: nat)
    requires k <= |segments|
    ensures |Join(segments[k..])| <= |Join(segments)|
  {
    if 0 < k {
      JoinLength(segments, k - 1);
      JoinCons(segments[k - 1], segments[k..]);
      assert segments[k - 1..] == [segments[k - 1]] + segments[k..];
    } else {
      assert segments[0..] == segments;
    }
  }

  lemma ParsedShorter(c: Config, segments: seq<string>)
    ensures |ParseSegments(c, segments).path| <= |Join(segments)|
  {
    JoinLength(segments, 0);
    if segments != [] {
      JoinLength(segments, 1);
      if |segments| > 1 {
        JoinLength(segments, 2);
        assert segments[1..][1..] == segments[2..];
      }
    }
  }

  lemma {:induction false} JoinNonEmpty(ps: seq<string>)
    ensures |Join(NonEmpty(ps))| <= |Join(ps)|
  {
    if ps != [] {
      var n := |ps| - 1;
      JoinNonEmpty(ps[..n]);
      JoinSnoc(ps[..n], ps[n]);
      JoinSnoc(NonEmpty(ps[..n]), ps[n]);
      assert ps == ps[..n] + [ps[n]];
      if ps[n] == "" {
        assert NonEmpty(ps) == NonEmpty(ps[..n]);
      }
    }
  }

  lemma JoinSnoc(ps: seq<string>, p: string)
    ensures Join(ps + [p]) == if ps == [] then p else Join(ps) + "/" + p
  {
    assert (ps + [p])[..|ps|] == ps;
  }

  lemma {:induction false} JoinPieces(s: string)
    ensures Join(Pieces(s)) == s
  {
    hide Join;
    if s == [] {
      JoinSnoc([], "");
      assert [] + [""] == [""];
    } else {
      JoinPieces(s[..|s| - 1]);
      JoinAddChar(Pieces(s[..|s| - 1]), s[|s| - 1]);
      assert s == s[..|s| - 1] + [s[|s| - 1]];
    }
  }

  lemma JoinAddChar(pieces: seq<string>, c: char)
    requires pieces != []
    ensures Join(AddChar(pieces, c)) == Join(pieces) + [c]
  {
    hide Join;
    var n := |pieces| - 1;
    assert pieces == pieces[..n] + [pieces[n]];
    JoinSnoc(pieces[..n], pieces[n]);
    JoinSnoc(pieces, "");
    JoinSnoc(pieces[..n], pieces[n] + [c]);
  }

  // ----- all routes of a document

  type Choices = seq<(Option<string>, Option<string>)>

  function Somes(values: seq<string>): (r: seq<Option<string>>)
    ensures |r| == |values| && forall i :: 0 <= i < |r| ==> r[i] == Some(values[i])
    ensures forall x :: x in r <==> x.Some? && x.value in values
  {
    if values == [] then []
    else
      assert forall x :: x in values <==> x in values[..|values| - 1] || x == values[|values| - 1];
      Somes(values[..|values| - 1]) + [Some(values[|values| - 1])]
  }

  function Row(v: Option<string>, locales: seq<Option<string>>): (r: Choices)
    ensures |r| == |locales| && forall i :: 0 <= i < |r| ==> r[i] == (v, locales[i])
    ensures forall w, l :: (w, l) in r <==> w == v && l in locales
  {
    if locales == [] then []
    else
      assert forall x :: x in locales <==> x in locales[..|locales| - 1] || x == locales[|locales| - 1];
      Row(v, locales[..|locales| - 1]) + [(v, locales[|locales| - 1])]
  }

  function Column(versions: seq<Option<string>>, l: Option<string>): (r: Choices)
    ensures |r| == |versions| && forall i :: 0 <= i < |r| ==> r[i] == (versions[i], l)
    ensures forall v, k :: (v, k) in r <==> v in versions && k == l
  {
    if versions == [] then []
    else
      assert forall x :: x in versions <==> x in versions[..|versions| - 1] || x == versions[|versions| - 1];
      Column(versions[..|versions| - 1], l) + [(versions[|versions| - 1], l)]
  }

  function Pairs(versions: seq<string>, locales: seq<string>): (r: Choices)
    ensures forall v, l :: (v, l) in r <==> v.Some? && l.Some? && v.value in versions && l.value in locales
  {
    if versions == [] then []
    else
      var last := versions[|versions| - 1];
      assert forall v :: v in versions <==> v in versions[..|versions| - 1] || v == last;
      Pairs(versions[..|versions| - 1], locales) + Row(Some(last), Somes(locales))
  }

  /** Every combination of no or one version with no or one locale. */
  function AllChoices(versions: seq<string>, locales: seq<string>): Choices {
    [(None, None)] + Column(Somes(versions), None) + Row(None, Somes(locales)) + Pairs(versions, locales)
  }

  lemma {:induction false} PairsCount(versions: seq<string>, locales: seq<string>)
    ensures |Pairs(versions, locales)| == |versions| * |locales|
  {
    if versions != [] {
      PairsCount(versions[..|versions| - 1], locales);
      OneMoreRow(|versions|, |locales|);
    }
  }

  lemma OneMoreRow(n: nat, m: nat)
    requires n > 0
    ensures (n - 1) * m + m == n * m
  {
  }

  lemma ChoicesCount(versions: seq<string>, locales: seq<string>)
    ensures |AllChoices(versions, locales)| == (1 + |versions|) * (1 + |locales|)
  {
    PairsCount(versions, locales);
  }

  predicate IsChoice(c: Config, v: Option<string>, l: Option<string>) {
    Choice(c.versioning, v) && Choice(c.i18n, l)
  }

  lemma AllChoicesAre(c: Config, v: Option<string>, l: Option<string>)
    ensures (v, l) in AllChoices(Enabled(c.versioning), Enabled(c.i18n)) <==> IsChoice(c, v, l)
  {
    hide Column, Row, Pairs, Somes;
    var vs, ls := Enabled(c.versioning), Enabled(c.i18n);
    assert (v, l) in AllChoices(vs, ls) <==>
           (v, l) == (None, None) || (v, l) in Column(Somes(vs), None) || (v, l) in Row(None, Somes(ls)) || (v, l) in Pairs(vs, ls);
  }

  lemma {:induction false} PairsDistinct(versions: seq<string>, locales: seq<string>)
    requires NoDuplicates(versions) && NoDuplicates(locales)
    ensures forall i, j :: 0 <= i < j < |Pairs(versions, locales)| ==> Pairs(versions, locales)[i] != Pairs(versions, locales)[j]
  {
    if versions != [] {
      var n := |versions| - 1;
      PairsDistinct(versions[..n], locales);
      var front := Pairs(versions[..n], locales);
      forall i | 0 <= i < |front|
        ensures front[i].0 != Some(versions[n])
      {
        assert front[i] in front && (front[i].0, front[i].1) in front;
      }
    }
  }

  lemma ChoicesDistinct(versions: seq<string>, locales: seq<string>)
    requires NoDuplicates(versions) && NoDuplicates(locales)
    ensures forall i, j :: 0 <= i < j < |AllChoices(versions, locales)| ==> AllChoices(versions, locales)[i] != AllChoices(versions, locales)[j]
  {
    hide Column, Row, Pairs, Somes;
    PairsDistinct(versions, locales);
    var pairs := Pairs(versions, locales);
    forall i | 0 <= i < |pairs|
      ensures pairs[i].0.Some? && pairs[i].1.Some?
    {
      assert (pairs[i].0, pairs[i].1) in pairs;
    }
  }

  function RouteOf(path: string, version: Option<string>, locale: Option<string>): string {
    BuildDocsPath(path, Prefix(version, locale))
  }

  ghost predicate IsVariant(c: Config, path: string, route: string) {
    exists v, l :: (v, l) in AllChoices(Enabled(c.versioning), Enabled(c.i18n)) && route == RouteOf(path, v, l)
  }

  /** The loops of `buildDocsRouteVariants`: the set of routes, in order of insertion. */
  method BuildDocsRouteVariants(c: Config, path0: string) returns (routes: seq<string>)
    requires forall v :: v in c.versioning.values + c.i18n.values ==> v != ""
    ensures NoDuplicates(routes)
    ensures forall r :: r in routes <==> IsVariant(c, Normalize(path0), r)
  {
    hide *;
    var path := Normalize(path0);
    ghost var seen: set<(Option<string>, Option<string>)> := {};
    routes := [];
    CoverNone(path);
    PrefixIs(c);
    CoverOne(path, routes, seen, None, None);
    routes := AddUnique(routes, BuildDocsPath(path, ResolvePrefix(c, false, false, None, None)));
    seen := seen + {(None, None)};
    if c.versioning.enabled {
      for i := 0 to |c.versioning.values|
        invariant NoDuplicates(routes) && Covers(path, routes, seen)
        invariant forall v, l :: (v, l) in seen <==> l.None? && (v.Some? ==> v.value in c.versioning.values[..i])
      {
        var version := c.versioning.values[i];
        assert forall x :: x in c.versioning.values[..i + 1] <==> x in c.versioning.values[..i] || x == version;
        assert version in c.versioning.values + c.i18n.values;
        CoverOne(path, routes, seen, Some(version), None);
        routes := AddUnique(routes, BuildDocsPath(path, ResolvePrefix(c, true, false, Some(version), None)));
        seen := seen + {(Some(version), None)};
      }
      assert c.versioning.values[..|c.versioning.values|] == c.versioning.values;
    }
    EnabledIs(c.versioning);
    EnabledIs(c.i18n);
    assert forall v, l :: (v, l) in seen <==> l.None? && (v.Some? ==> v.value in Enabled(c.versioning));
    routes, seen := AddLocales(c, path, routes, seen);
    if c.versioning.enabled || c.i18n.enabled {
      routes, seen := AddContexts(c, path, routes, seen);
    }
    ContextsAre(c);
    CoversAll(c, path, routes, seen);
  }

  method AddLocales(c: Config, path: string, before: seq<string>, ghost known: set<(Option<string>, Option<string>)>)
    returns (routes: seq<string>, ghost seen: set<(Option<string>, Option<string>)>)
    requires forall v :: v in c.versioning.values + c.i18n.values ==> v != ""
    requires NoDuplicates(before) && Covers(path, before, known)
    ensures NoDuplicates(routes) && Covers(path, routes, seen)
    ensures forall v, l :: (v, l) in seen <==> (v, l) in known || (v.None? && l.Some? && l.value in Enabled(c.i18n))
  {
    hide *;
    routes, seen := before, known;
    EnabledIs(c.i18n);
    PrefixIs(c);
    if c.i18n.enabled {
      for i := 0 to |c.i18n.values|
        invariant NoDuplicates(routes) && Covers(path, routes, seen)
        invariant forall v, l :: (v, l) in seen <==> (v, l) in known || (v.None? && l.Some? && l.value in c.i18n.values[..i])
      {
        var locale := c.i18n.values[i];
        assert forall x :: x in c.i18n.values[..i + 1] <==> x in c.i18n.values[..i] || x == locale;
        assert locale in c.versioning.values + c.i18n.values;
        CoverOne(path, routes, seen, None, Some(locale));
        routes := AddUnique(routes, BuildDocsPath(path, ResolvePrefix(c, false, true, None, Some(locale))));
        seen := seen + {(None, Some(locale))};
      }
      assert c.i18n.values[..|c.i18n.values|] == c.i18n.values;
    }
  }

  lemma CoverNone(path: string)
    ensures NoDuplicates<string>([]) && Covers(path, [], {})
  {
  }

  lemma PrefixIs(c: Config)
    ensures ResolvePrefix(c, false, false, None, None) == Prefix(None, None)
    ensures forall v :: v != "" ==> ResolvePrefix(c, true, false, Some(v), None) == Prefix(Some(v), None)
    ensures forall l :: l != "" ==> ResolvePrefix(c, false, true, None, Some(l)) == Prefix(None, Some(l))
  {
  }

  lemma EnabledIs(f: Feature)
    ensures Enabled(f) == if f.enabled then f.values else []
  {
  }

  lemma ContextsAre(c: Config)
    ensures forall v, l :: IsChoice(c, v, l) <==>
              || (l.None? && (v.Some? ==> v.value in Enabled(c.versioning)))
              || (v.None? && l.Some? && l.value in Enabled(c.i18n))
              || ((c.versioning.enabled || c.i18n.enabled) && v in Contexts(c.versioning) && l in Contexts(c.i18n))
  {
  }

  function Contexts(f: Feature): (r: seq<Option<string>>)
    ensures forall x :: x in r <==> if f.enabled then x.Some? && x.value in f.values else x.None?
  {
    if f.enabled then Somes(f.values) else [None]
  }

  /** The last loop, over `getDocsVariantContexts`. */
  method AddContexts(c: Config, path: string, before: seq<string>, ghost known: set<(Option<string>, Option<string>)>)
    returns (routes: seq<string>, ghost seen: set<(Option<string>, Option<string>)>)
    requires forall v :: v in c.versioning.values + c.i18n.values ==> v != ""
    requires NoDuplicates(before) && Covers(path, before, known)
    ensures NoDuplicates(routes) && Covers(path, routes, seen)
    ensures forall v, l :: (v, l) in seen <==> (v, l) in known || (v in Contexts(c.versioning) && l in Contexts(c.i18n))
  {
    hide *;
    var versions := Contexts(c.versioning);
    routes, seen := before, known;
    for i := 0 to |versions|
      invariant NoDuplicates(routes) && Covers(path, routes, seen)
      invariant forall v, l :: (v, l) in seen <==> (v, l) in known || (v in versions[..i] && l in Contexts(c.i18n))
    {
      assert forall x :: x in versions[..i + 1] <==> x in versions[..i] || x == versions[i];
      assert versions[i] in versions;
      routes, seen := AddRow(c, path, versions[i], routes, seen);
    }
    assert versions[..|versions|] == versions;
  }

  method AddRow(c: Config, path: string, version: Option<string>, before: seq<string>, ghost known: set<(Option<string>, Option<string>)>)
    returns (routes: seq<string>, ghost seen: set<(Option<string>, Option<string>)>)
    requires forall v :: v in c.versioning.values + c.i18n.values ==> v != ""
    requires NoDuplicates(before) && Covers(path, before, known) && version in Contexts(c.versioning)
    ensures NoDuplicates(routes) && Covers(path, routes, seen)
    ensures forall v, l :: (v, l) in seen <==> (v, l) in known || (v == version && l in Contexts(c.i18n))
  {
    hide *;
    var locales := Contexts(c.i18n);
    routes, seen := before, known;
    for j := 0 to |locales|
      invariant NoDuplicates(routes) && Covers(path, routes, seen)
      invariant forall v, l :: (v, l) in seen <==> (v, l) in known || (v == version && l in locales[..j])
    {
      assert forall x :: x in locales[..j + 1] <==> x in locales[..j] || x == locales[j];
      assert locales[j] in locales;
      ContextPrefix(c, version, locales[j]);
      var route := BuildDocsPath(path, ResolvePrefix(c, c.versioning.enabled, c.i18n.enabled, version, locales[j]));
      CoverOne(path, routes, seen, version, locales[j]);
      routes := AddUnique(routes, route);
      seen := seen + {(version, locales[j])};
    }
    assert locales[..|locales|] == locales;
  }

  lemma CoverOne(path: string, routes: seq<string>, seen: set<(Option<string>, Option<string>)>, v: Option<string>, l: Option<string>)
    requires Covers(path, routes, seen) && NoDuplicates(routes)
    ensures var next := AddUnique(routes, BuildDocsPath(path, Prefix(v, l)));
            NoDuplicates(next) && Covers(path, next, seen + {(v, l)})
  {
    hide BuildDocsPath;
    assert RouteOf(path, v, l) == BuildDocsPath(path, Prefix(v, l));
    hide RouteOf;
    var next := AddUnique(routes, RouteOf(path, v, l));
    forall r
      ensures r in next <==> exists c :: c in seen + {(v, l)} && r == RouteOf(path, c.0, c.1)
    {
      if r in routes {
        var c :| c in seen && r == RouteOf(path, c.0, c.1);
        assert c in seen + {(v, l)};
      }
      if r == RouteOf(path, v, l) {
        assert (v, l) in seen + {(v, l)} && r == RouteOf(path, (v, l).0, (v, l).1);
      }
    }
  }

  lemma ContextPrefix(c: Config, v: Option<string>, l: Option<string>)
    requires forall x :: x in c.versioning.values + c.i18n.values ==> x != ""
    requires v in Contexts(c.versioning) && l in Contexts(c.i18n)
    ensures ResolvePrefix(c, c.versioning.enabled, c.i18n.enabled, v, l) == Prefix(v, l)
  {
    if v.Some? {
      assert v.value in c.versioning.values + c.i18n.values;
    }
    if l.Some? {
      assert l.value in c.versioning.values + c.i18n.values;
    }
  }

  lemma CoversAll(c: Config, path: string, routes: seq<string>, seen: set<(Option<string>, Option<string>)>)
    requires Covers(path, routes, seen)
    requires forall v, l :: (v, l) in seen <==> IsChoice(c, v, l)
    ensures forall r :: r in routes <==> IsVariant(c, path, r)
  {
    hide RouteOf, IsChoice, AllChoices;
    forall r
      ensures r in routes <==> IsVariant(c, path, r)
    {
      if r in routes {
        var x :| x in seen && r == RouteOf(path, x.0, x.1);
        assert (x.0, x.1) in seen;
        AllChoicesAre(c, x.0, x.1);
      }
      if IsVariant(c, path, r) {
        var v, l :| (v, l) in AllChoices(Enabled(c.versioning), Enabled(c.i18n)) && r == RouteOf(path, v, l);
        AllChoicesAre(c, v, l);
        var x := (v, l);
        assert x in seen && r == RouteOf(path, x.0, x.1);
      }
    }
  }

  // ----- how many there are

  function RoutesOf(path: string, choices: Choices): (r: seq<string>)
    ensures |r| == |choices|
  {
    seq(|choices|, i requires 0 <= i < |choices| => RouteOf(path, choices[i].0, choices[i].1))
  }

  /** Different choices give different routes: `(1 + |V|) * (1 + |L|)` of them. */
  lemma VariantsAreAll(c: Config, path: string, routes: seq<string>)
    requires Usable(c)
    requires NoDuplicates(routes) && forall r :: r in routes <==> IsVariant(c, path, r)
    ensures |routes| == (1 + |Enabled(c.versioning)|) * (1 + |Enabled(c.i18n)|)
  {
    hide AllChoices, Usable, RouteOf;
    var choices := AllChoices(Enabled(c.versioning), Enabled(c.i18n));
    var all := RoutesOf(path, choices);
    DistinctValues(c);
    ChoicesCount(Enabled(c.versioning), Enabled(c.i18n));
    ChoicesDistinct(Enabled(c.versioning), Enabled(c.i18n));
    forall i, j | 0 <= i < j < |all|
      ensures all[i] != all[j]
    {
      AllChoicesAre(c, choices[i].0, choices[i].1);
      AllChoicesAre(c, choices[j].0, choices[j].1);
      assert (choices[i].0, choices[i].1) in choices && (choices[j].0, choices[j].1) in choices;
      assert choices[i] != choices[j];
      RouteDetermines(c, path, choices[i].0, choices[i].1, choices[j].0, choices[j].1);
    }
    forall r
      ensures r in all <==> r in routes
    {
      if r in all {
        var i: nat :| i < |all| && all[i] == r;
        assert (choices[i].0, choices[i].1) in choices;
      }
      if r in routes {
        var v, l :| (v, l) in choices && r == RouteOf(path, v, l);
        var i: nat :| i < |choices| && choices[i] == (v, l);
        assert all[i] == r;
      }
    }
    NoDuplicatesSize(all);
    NoDuplicatesSize(routes);
    assert Elements(all) == Elements(routes);
  }

  lemma DistinctValues(c: Config)
    requires Usable(c)
    ensures NoDuplicates(Enabled(c.versioning)) && NoDuplicates(Enabled(c.i18n))
  {
  }

  /** A route says which choice it was built for: joining slash-free segments loses nothing. */
  lemma RouteDetermines(c: Config, path: string, v: Option<string>, l: Option<string>, w: Option<string>, k: Option<string>)
    requires Usable(c) && IsChoice(c, v, l) && IsChoice(c, w, k)
    ensures RouteOf(path, v, l) == RouteOf(path, w, k) <==> v == w && l == k
  {
    hide Join, Segments, Normalize, Usable, Pieces, AllSegments;
    var segments := Segments(Normalize(path));
    var a, b := Prefix(v, l) + segments, Prefix(w, k) + segments;
    SegmentsAre(Normalize(path));
    PrefixSegments(c, Prefix(v, l), segments);
    PrefixSegments(c, Prefix(w, k), segments);
    RouteIs(path, v, l, a);
    RouteIs(path, w, k, b);
    if RouteOf(path, v, l) == RouteOf(path, w, k) {
      JoinInjective(a, b);
      SamePrefix(Prefix(v, l), Prefix(w, k), segments);
      PrefixesApart(c, v, l, w, k);
    }
  }

  lemma RouteIs(path: string, v: Option<string>, l: Option<string>, all: seq<string>)
    requires all == Prefix(v, l) + Segments(Normalize(path))
    ensures RouteOf(path, v, l) == "/" + Join(["docs"] + all)
  {
    hide Join, Segments, Normalize, Prefix;
    assert ["docs"] + Prefix(v, l) + Segments(Normalize(path)) == ["docs"] + all;
  }

  lemma JoinInjective(a: seq<string>, b: seq<string>)
    requires AllSegments(a) && AllSegments(b) && "/" + Join(["docs"] + a) == "/" + Join(["docs"] + b)
    ensures a == b
  {
    hide Join, Pieces;
    assert Segment("docs");
    assert ("/" + Join(["docs"] + a))[1..] == Join(["docs"] + a) && ("/" + Join(["docs"] + b))[1..] == Join(["docs"] + b);
    PiecesOfJoin(["docs"] + a);
    PiecesOfJoin(["docs"] + b);
    assert (["docs"] + a)[1..] == a && (["docs"] + b)[1..] == b;
  }

  lemma SamePrefix(a: seq<string>, b: seq<string>, rest: seq<string>)
    requires a + rest == b + rest
    ensures a == b
  {
    assert |a| == |b|;
    assert (a + rest)[..|a|] == a && (b + rest)[..|b|] == b;
  }

  lemma PrefixesApart(c: Config, v: Option<string>, l: Option<string>, w: Option<string>, k: Option<string>)
    requires Usable(c) && IsChoice(c, v, l) && IsChoice(c, w, k) && Prefix(v, l) == Prefix(w, k)
    ensures v == w && l == k
  {
    assert v.Some? ==> Prefix(v, l)[0] == v.value;
    assert l.Some? ==> Prefix(v, l)[|Prefix(v, l)| - 1] == l.value;
    assert w.Some? ==> Prefix(w, k)[0] == w.value;
    assert k.Some? ==> Prefix(w, k)[|Prefix(w, k)| - 1] == k.value;
    assert v.None? && l.None? ==> |Prefix(v, l)| == 0;
    assert w.None? && k.None? ==> |Prefix(w, k)| == 0;
    assert |Prefix(v, l)| == |Prefix(w, k)|;
  }

  ghost predicate Covers(path: string, routes: seq<string>, seen: set<(Option<string>, Option<string>)>) {
    forall r :: r in routes <==> exists c :: c in seen && r == RouteOf(path, c.0, c.1)
  }
}
