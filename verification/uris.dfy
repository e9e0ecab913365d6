/**
 * URI references as RFC 3986 splits, recomposes and resolves them: the component
 * split of appendix B, recomposition (section 5.3), reference resolution
 * (section 5.2.2), path merging (section 5.2.3) and dot-segment removal
 * (section 5.2.4). The controllers build every upstream address as
 * new Uri(new Uri(baseUrl), reference), which is this resolution.
 */
module Uris {
  import opened Wrappers

  /** The five components of a URI reference; an absent component differs from an empty one. */
  datatype Uri = Uri(
    scheme: Option<string>,
    authority: Option<string>,
    path: string,
    query: Option<string>,
    fragment: Option<string>)

  const SchemeEnd: set<char> := {':', '/', '?', '#'}
  const AuthorityEnd: set<char> := {'/', '?', '#'}
  const PathEnd: set<char> := {'?', '#'}
  const QueryEnd: set<char> := {'#'}
  const Slash: set<char> := {'/'}

  predicate NoneOf(s: string, stops: set<char>) {
    forall i :: 0 <= i < |s| ==> s[i] !in stops
  }

  predicate StartsWith(s: string, prefix: string) {
    |prefix| <= |s| && s[..|prefix|] == prefix
  }

  /** The index of the first character of s that is one of stops, or |s| when there is none. */
  function IndexOfAny(s: string, stops: set<char>): (k: nat)
    ensures k <= |s|
    ensures forall j :: 0 <= j < k ==> s[j] !in stops
    ensures k < |s| ==> s[k] in stops
  {
    if s == [] || s[0] in stops then 0 else 1 + IndexOfAny(s[1..], stops)
  }

  lemma {:induction false} IndexOfAnyAppend(a: string, b: string, stops: set<char>)
    ensures IndexOfAny(a + b, stops)
         == if IndexOfAny(a, stops) < |a| then IndexOfAny(a, stops) else |a| + IndexOfAny(b, stops)
  {
    if a == [] {
      assert a + b == b;
    } else if a[0] !in stops {
      assert (a + b)[1..] == a[1..] + b;
      IndexOfAnyAppend(a[1..], b, stops);
    }
  }

  // ---------------------------------------------------------------- recomposition

  function SchemeText(scheme: Option<string>): string {
    if scheme.Some? then scheme.value + ":" else ""
  }

  function AuthorityText(authority: Option<string>): string {
    if authority.Some? then "//" + authority.value else ""
  }

  function QueryText(query: Option<string>): string {
    if query.Some? then "?" + query.value else ""
  }

  function FragmentText(fragment: Option<string>): string {
    if fragment.Some? then "#" + fragment.value else ""
  }

  /** Component recomposition, section 5.3 of RFC 3986. */
  function ToText(u: Uri): string {
    SchemeText(u.scheme) + (AuthorityText(u.authority) + (u.path + (QueryText(u.query) + FragmentText(u.fragment))))
  }

  /** Giving a URI with no path, query or fragment a path and a query appends their text. */
  lemma ToTextWithPath(u: Uri, path: string, query: Option<string>)
    requires u.path == "" && u.query.None? && u.fragment.None?
    ensures ToText(Uri(u.scheme, u.authority, path, query, None)) == ToText(u) + path + QueryText(query)
  {
    var head, auth, q := SchemeText(u.scheme), AuthorityText(u.authority), QueryText(query);
    assert ToText(u) == head + auth by {
      assert QueryText(u.query) + FragmentText(u.fragment) == "";
      assert u.path + "" == "" && auth + "" == auth;
    }
    assert ToText(Uri(u.scheme, u.authority, path, query, None)) == head + (auth + (path + q)) by {
      assert q + FragmentText(None) == q;
    }
    Associate(head, auth, path, q);
  }

  lemma Associate<T>(a: seq<T>, b: seq<T>, c: seq<T>, d: seq<T>)
    ensures a + (b + (c + d)) == a + b + c + d
  {
  }

  lemma NoneOfAppend(a: string, b: string, stops: set<char>)
    requires NoneOf(a, stops) && NoneOf(b, stops)
    ensures NoneOf(a + b, stops)
  {
    forall i | 0 <= i < |a + b|
      ensures (a + b)[i] !in stops
    {
      if i >= |a| {
        assert (a + b)[i] == b[i - |a|];
      }
    }
  }
  /** Slices of a + b that lie in a, and what follows them. */
  lemma SlicesOfAppend<T>(a: seq<T>, b: seq<T>, i: int, j: int)
    requires 0 <= i <= j <= |a|
    ensures (a + b)[i..j] == a[i..j]
    ensures (a + b)[j..] == a[j..] + b
  {
  }

  lemma AppendSplit<T>(x: seq<T>, s: seq<T>, k: int)
    requires 0 <= k <= |s|
    ensures x + s[..k] + s[k..] == x + s
  {
    assert s[..k] + s[k..] == s;
  }

  // ---------------------------------------------------------------- parsing

  /** Groups 1-2 of the regular expression of appendix B: "scheme:". */
  function SplitScheme(s: string): (r: (Option<string>, string))
    ensures SchemeText(r.0) + r.1 == s
  {
    var k := IndexOfAny(s, SchemeEnd);
    if 0 < k < |s| && s[k] == ':' then (Some(s[..k]), s[k + 1..]) else (None, s)
  }

  /** Groups 3-4: "//authority". */
  function SplitAuthority(s: string): (r: (Option<string>, string))
    ensures AuthorityText(r.0) + r.1 == s
  {
    if StartsWith(s, "//") then
      var k := IndexOfAny(s[2..], AuthorityEnd);
      assert s == "//" + s[2..][..k] + s[2..][k..];
      (Some(s[2..][..k]), s[2..][k..])
    else
      (None, s)
  }

  /** Group 5: the path, which runs to the first "?" or "#". */
  function SplitPath(s: string): (r: (string, string))
    ensures r.0 + r.1 == s
    ensures NoneOf(r.0, PathEnd)
    ensures r.1 == "" || r.1[0] in PathEnd
  {
    var k := IndexOfAny(s, PathEnd);
    assert s == s[..k] + s[k..];
    (s[..k], s[k..])
  }

  /** Groups 6-7: "?query". */
  function SplitQuery(s: string): (r: (Option<string>, string))
    requires s == "" || s[0] in PathEnd
    ensures QueryText(r.0) + r.1 == s
    ensures r.1 == "" || r.1[0] == '#'
  {
    if s != "" && s[0] == '?' then
      var k := IndexOfAny(s[1..], QueryEnd);
      assert s == "?" + s[1..][..k] + s[1..][k..];
      (Some(s[1..][..k]), s[1..][k..])
    else
      (None, s)
  }

  /** Groups 8-9: "#fragment". */
  function SplitFragment(s: string): (r: Option<string>)
    requires s == "" || s[0] == '#'
    ensures FragmentText(r) == s
  {
    if s == "" then None else Some(s[1..])
  }

  /** Splits a URI reference into its components; nothing of the text is lost. */
  function Parse(s: string): (u: Uri)
    ensures ToText(u) == s
  {
    var (scheme, afterScheme) := SplitScheme(s);
    var (authority, afterAuthority) := SplitAuthority(afterScheme);
    var (path, afterPath) := SplitPath(afterAuthority);
    var (query, afterQuery) := SplitQuery(afterPath);
    Uri(scheme, authority, path, query, SplitFragment(afterQuery))
  }

  /** A path whose leading characters cannot be read as "scheme:". */
  predicate NoSchemeColon(path: string) {
    var k := IndexOfAny(path, SchemeEnd);
    k == 0 || k == |path| || path[k] != ':'
  }

  /** The components that recompose into text which splits back into them. */
  predicate WellFormed(u: Uri) {
    && (u.scheme.Some? ==> u.scheme.value != "" && NoneOf(u.scheme.value, SchemeEnd))
    && (u.authority.Some? ==> NoneOf(u.authority.value, AuthorityEnd) && (u.path == "" || u.path[0] == '/'))
    && (u.authority.None? ==> !StartsWith(u.path, "//"))
    && (u.scheme.None? && u.authority.None? ==> NoSchemeColon(u.path))
    && NoneOf(u.path, PathEnd)
    && (u.query.Some? ==> NoneOf(u.query.value, QueryEnd))
  }

  lemma IndexOfAnyNone(s: string, stops: set<char>)
    requires NoneOf(s, stops)
    ensures IndexOfAny(s, stops) == |s|
  {
  }

  /** The text starts with a scheme: the URI it spells is absolute. */
  predicate IsAbsolute(s: string) {
    SplitScheme(s).0.Some?
  }

  lemma IsAbsoluteParse(s: string)
    ensures IsAbsolute(s) <==> Parse(s).scheme.Some?
  {
  }

  /** Text appended to an absolute URI leaves its scheme where it was. */
  lemma SchemeOfExtended(s: string, suffix: string)
    requires SplitScheme(s).0.Some?
    ensures SplitScheme(s + suffix).0 == SplitScheme(s).0
  {
    var k := IndexOfAny(s, SchemeEnd);
    IndexOfAnyAppend(s, suffix, SchemeEnd);
    assert (s + suffix)[k] == s[k];
    assert (s + suffix)[..k] == s[..k];
  }

  lemma SplitSchemeOf(scheme: Option<string>, rest: string)
    requires scheme.Some? ==> scheme.value != "" && NoneOf(scheme.value, SchemeEnd)
    requires scheme.None? ==> NoSchemeColon(rest)
    ensures SplitScheme(SchemeText(scheme) + rest) == (scheme, rest)
  {
    if scheme.Some? {
      var sc := scheme.value;
      var s := SchemeText(scheme) + rest;
      assert s == sc + (":" + rest);
      IndexOfAnyAppend(sc, ":" + rest, SchemeEnd);
      IndexOfAnyNone(sc, SchemeEnd);
      assert s[..|sc|] == sc;
      assert s[|sc| + 1..] == rest;
    } else {
      assert SchemeText(scheme) + rest == rest;
    }
  }

  lemma SplitAuthorityOf(authority: Option<string>, rest: string)
    requires authority.Some? ==> NoneOf(authority.value, AuthorityEnd) && (rest == "" || rest[0] in AuthorityEnd)
    requires authority.None? ==> !StartsWith(rest, "//")
    ensures SplitAuthority(AuthorityText(authority) + rest) == (authority, rest)
  {
    var s := AuthorityText(authority) + rest;
    if authority.Some? {
      var a := authority.value;
      assert StartsWith(s, "//");
      assert s[2..] == a + rest;
      IndexOfAnyAppend(a, rest, AuthorityEnd);
      IndexOfAnyNone(a, AuthorityEnd);
      assert (a + rest)[..|a|] == a;
      assert (a + rest)[|a|..] == rest;
    } else {
      assert s == rest;
    }
  }

  lemma SplitPathOf(path: string, rest: string)
    requires NoneOf(path, PathEnd)
    requires rest == "" || rest[0] in PathEnd
    ensures SplitPath(path + rest) == (path, rest)
  {
    IndexOfAnyAppend(path, rest, PathEnd);
    IndexOfAnyNone(path, PathEnd);
    assert (path + rest)[..|path|] == path;
    assert (path + rest)[|path|..] == rest;
  }

  lemma SplitQueryOf(query: Option<string>, rest: string)
    requires query.Some? ==> NoneOf(query.value, QueryEnd)
    requires rest == "" || rest[0] == '#'
    ensures SplitQuery(QueryText(query) + rest) == (query, rest)
  {
    var s := QueryText(query) + rest;
    if query.Some? {
      var q := query.value;
      assert s[1..] == q + rest;
      IndexOfAnyAppend(q, rest, QueryEnd);
      IndexOfAnyNone(q, QueryEnd);
      assert (q + rest)[..|q|] == q;
      assert (q + rest)[|q|..] == rest;
    } else {
      assert s == rest;
    }
  }

  /** What follows a path in recomposed text starts with "?" or "#", or is empty. */
  lemma PathFollowedByDelimiter(path: string, tail: string)
    requires tail == "" || tail[0] in PathEnd
    ensures !StartsWith(path, "//") ==> !StartsWith(path + tail, "//")
    ensures NoSchemeColon(path) ==> NoSchemeColon(path + tail)
  {
    if |path| >= 2 {
      assert (path + tail)[..2] == path[..2];
    } else if |path| == 1 && |tail| > 0 {
      assert (path + tail)[1] == tail[0];
    } else if |tail| > 0 {
      assert (path + tail)[0] == tail[0];
    }
    IndexOfAnyAppend(path, tail, SchemeEnd);
    if IndexOfAny(path, SchemeEnd) == |path| && tail != "" {
      assert IndexOfAny(tail, SchemeEnd) == 0;
      assert (path + tail)[|path|] == tail[0];
    }
  }

  /** Recomposing well-formed components and splitting the text again gives them back. */
  lemma {:induction false} ParseToText(u: Uri)
    requires WellFormed(u)
    ensures Parse(ToText(u)) == u
  {
    var fragment := FragmentText(u.fragment);
    var tail := QueryText(u.query) + fragment;
    var afterAuthority := u.path + tail;
    var afterScheme := AuthorityText(u.authority) + afterAuthority;
    assert tail == "" || tail[0] in PathEnd;
    PathFollowedByDelimiter(u.path, tail);
    if u.scheme.None? && u.authority.Some? {
      assert afterScheme[0] in SchemeEnd;
    }
    if u.authority.None? {
      assert afterScheme == afterAuthority;
    }
    SplitSchemeOf(u.scheme, afterScheme);
    SplitAuthorityOf(u.authority, afterAuthority);
    SplitPathOf(u.path, tail);
    SplitQueryOf(u.query, fragment);
    assert SplitFragment(fragment) == u.fragment;
  }

  // ---------------------------------------------------------------- dot segments

  /** The length of the first segment of a path with its leading "/", if any. */
  function FirstSegmentEnd(input: string): (k: nat)
    requires input != ""
    ensures 0 < k <= |input|
  {
    if input[0] == '/' then 1 + IndexOfAny(input[1..], Slash) else IndexOfAny(input, Slash)
  }

  /** The length of the prefix of p that ends with its last "/", or 0 when p has none. */
  function DirectoryEnd(p: string): (k: nat)
    ensures k <= |p|
    ensures 0 < k ==> p[k - 1] == '/'
    ensures forall j :: k <= j < |p| ==> p[j] != '/'
  {
    if p == "" then 0 else if p[|p| - 1] == '/' then |p| else DirectoryEnd(p[..|p| - 1])
  }

  /** Removes the last segment of the output buffer and the "/" before it, if any. */
  function DropLastSegment(output: string): string {
    var k := DirectoryEnd(output);
    if k == 0 then "" else output[..k - 1]
  }

  /** The loop of section 5.2.4 of RFC 3986, one rule per step, over an input and an output buffer. */
  function RemoveDots(input: string, output: string): string
    decreases |input|
  {
    if input == "" then output
    else if StartsWith(input, "../") then RemoveDots(input[3..], output)
    else if StartsWith(input, "./") then RemoveDots(input[2..], output)
    else if StartsWith(input, "/./") then RemoveDots(input[2..], output)
    else if input == "/." then RemoveDots("/", output)
    else if StartsWith(input, "/../") then RemoveDots(input[3..], DropLastSegment(output))
    else if input == "/.." then RemoveDots("/", DropLastSegment(output))
    else if input == "." || input == ".." then output
    else
      var k := FirstSegmentEnd(input);
      RemoveDots(input[k..], output + input[..k])
  }

  function RemoveDotSegments(path: string): string {
    RemoveDots(path, "")
  }

  /** A path made of "/"-led segments, none of which is "." or "..". */
  predicate DotFree(p: string)
    decreases |p|
  {
    p == "" || (p[0] == '/' && var k := FirstSegmentEnd(p); p[1..k] != "." && p[1..k] != ".." && DotFree(p[k..]))
  }

  /** Each rule of section 5.2.4 that handles a dot segment sees one as the input's first segment. */
  lemma DotRulesSeeDotSegment(input: string)
    requires input != "" && input[0] == '/'
    ensures !StartsWith(input, "../") && !StartsWith(input, "./") && input != "." && input != ".."
    ensures (StartsWith(input, "/./") || input == "/.") ==> input[1..FirstSegmentEnd(input)] == "."
    ensures (StartsWith(input, "/../") || input == "/..") ==> input[1..FirstSegmentEnd(input)] == ".."
  {
    assert |input| >= 3 ==> input[..3][0] == '/';
    assert |input| >= 2 ==> input[..2][0] == '/';
    var k := FirstSegmentEnd(input);
    if StartsWith(input, "/./") || input == "/." {
      assert input[1] == '.' && (|input| == 2 || input[2] == '/');
      assert input[1..][0] == '.';
      assert k == 2;
    }
    if StartsWith(input, "/../") || input == "/.." {
      assert input[1] == '.' && input[2] == '.' && (|input| == 3 || input[3] == '/');
      assert input[1..][0] == '.' && input[1..][1] == '.';
      assert k == 3;
    }
  }

  /** Rule E of section 5.2.4 moves the first segment of a path whose first segment is not a dot segment. */
  lemma RemoveDotsMovesSegment(input: string, output: string)
    requires input != "" && input[0] == '/'
    requires input[1..FirstSegmentEnd(input)] != "." && input[1..FirstSegmentEnd(input)] != ".."
    ensures RemoveDots(input, output)
         == RemoveDots(input[FirstSegmentEnd(input)..], output + input[..FirstSegmentEnd(input)])
  {
    DotRulesSeeDotSegment(input);
  }

  /** Dot-segment removal leaves a path without dot segments as it is. */
  lemma {:induction false} RemoveDotsOfDotFree(input: string, output: string)
    requires DotFree(input)
    ensures RemoveDots(input, output) == output + input
    decreases |input|
  {
    if input == "" {
      assert output + input == output;
    } else {
      var k := FirstSegmentEnd(input);
      RemoveDotsMovesSegment(input, output);
      RemoveDotsOfDotFree(input[k..], output + input[..k]);
      AppendSplit(output, input, k);
    }
  }

  lemma FirstSegmentEndAppend(a: string, b: string)
    requires a != "" && a[0] == '/'
    requires b == "" || b[0] == '/'
    ensures FirstSegmentEnd(a + b) == FirstSegmentEnd(a)
  {
    assert (a + b)[1..] == a[1..] + b;
    IndexOfAnyAppend(a[1..], b, Slash);
  }

  lemma {:induction false} DotFreeAppend(a: string, b: string)
    requires DotFree(a) && DotFree(b)
    ensures DotFree(a + b)
    decreases |a|
  {
    if a == "" {
      assert a + b == b;
    } else {
      var k := FirstSegmentEnd(a);
      FirstSegmentEndAppend(a, b);
      SlicesOfAppend(a, b, 1, k);
      DotFreeAppend(a[k..], b);
    }
  }

  /** A path segment: no "/", "?" or "#" in it, and not a dot segment. */
  predicate IsSegment(s: string) {
    NoneOf(s, {'/', '?', '#'}) && s != "." && s != ".."
  }

  /** "/" + segments[0] + "/" + segments[1] + ... */
  function JoinPath(segments: seq<string>): string {
    if segments == [] then "" else "/" + segments[0] + JoinPath(segments[1..])
  }

  lemma {:induction false} JoinPathShape(segments: seq<string>)
    requires forall i :: 0 <= i < |segments| ==> IsSegment(segments[i])
    ensures DotFree(JoinPath(segments))
    ensures NoneOf(JoinPath(segments), PathEnd)
    ensures segments != [] && segments[0] != "" ==> !StartsWith(JoinPath(segments), "//")
  {
    if segments != [] {
      var seg, rest := segments[0], JoinPath(segments[1..]);
      var p := JoinPath(segments);
      JoinPathShape(segments[1..]);
      assert p == "/" + (seg + rest) by {
        Associate("/", seg, rest, "");
        assert rest + "" == rest;
      }
      assert DotFree(p) by {
        SlicesOfAppend("/", seg + rest, 1, 1);
        SlicesOfAppend("/" + seg, rest, 1, 1 + |seg|);
        assert "/" + (seg + rest) == ("/" + seg) + rest;
        assert FirstSegmentEnd(p) == 1 + |seg| by {
          IndexOfAnyAppend(seg, rest, Slash);
          IndexOfAnyNone(seg, Slash);
        }
      }
      assert NoneOf(p, PathEnd) by {
        assert NoneOf(seg, PathEnd);
        NoneOfAppend(seg, rest, PathEnd);
        NoneOfAppend("/", seg + rest, PathEnd);
      }
      if seg != "" {
        assert !StartsWith(p, "//") by {
          assert p[1] == seg[0];
          assert p[..2][1] == p[1];
        }
      }
    }
  }

  // ---------------------------------------------------------------- resolution

  /** The base path up to and including its last "/" (section 5.2.3 of RFC 3986). */
  function BaseDirectory(base: Uri): string {
    if base.authority.Some? && base.path == "" then "/" else base.path[..DirectoryEnd(base.path)]
  }

  function MergePaths(base: Uri, referencePath: string): string {
    BaseDirectory(base) + referencePath
  }

  /** Transform References, section 5.2.2 of RFC 3986, for an absolute base. */
  function Resolve(base: Uri, r: Uri): (t: Uri)
    requires base.scheme.Some?
    ensures t.scheme.Some?
    ensures t.fragment == r.fragment
  {
    if r.scheme.Some? then
      Uri(r.scheme, r.authority, RemoveDotSegments(r.path), r.query, r.fragment)
    else if r.authority.Some? then
      Uri(base.scheme, r.authority, RemoveDotSegments(r.path), r.query, r.fragment)
    else if r.path == "" then
      Uri(base.scheme, base.authority, base.path, if r.query.Some? then r.query else base.query, r.fragment)
    else if r.path[0] == '/' then
      Uri(base.scheme, base.authority, RemoveDotSegments(r.path), r.query, r.fragment)
    else
      Uri(base.scheme, base.authority, RemoveDotSegments(MergePaths(base, r.path)), r.query, r.fragment)
  }

  /** A reference made of a path and a query splits into exactly those. */
  lemma ParsePathAndQuery(path: string, query: Option<string>)
    requires !StartsWith(path, "//") && NoSchemeColon(path) && NoneOf(path, PathEnd)
    requires query.Some? ==> NoneOf(query.value, QueryEnd)
    ensures Parse(path + QueryText(query)) == Uri(None, None, path, query, None)
  {
    var r := Uri(None, None, path, query, None);
    assert ToText(r) == path + QueryText(query);
    ParseToText(r);
  }

  /**
   * A reference whose path starts with "/" keeps only the base's scheme and
   * authority: the base's path and query are replaced.
   */
  lemma AbsolutePathReference(base: Uri, path: string, query: Option<string>)
    requires base.scheme.Some?
    requires path != "" && DotFree(path) && !StartsWith(path, "//") && NoneOf(path, PathEnd)
    requires query.Some? ==> NoneOf(query.value, QueryEnd)
    ensures Resolve(base, Parse(path + QueryText(query))) == Uri(base.scheme, base.authority, path, query, None)
  {
    ParsePathAndQuery(path, query);
    RemoveDotsOfDotFree(path, "");
  }
  /** The same, for a reference whose path is a list of plain segments. */
  lemma AbsoluteSegmentsReference(base: Uri, segments: seq<string>, query: Option<string>)
    requires base.scheme.Some?
    requires |segments| > 0 && segments[0] != ""
    requires forall i :: 0 <= i < |segments| ==> IsSegment(segments[i])
    requires query.Some? ==> NoneOf(query.value, QueryEnd)
    ensures Resolve(base, Parse(JoinPath(segments) + QueryText(query)))
         == Uri(base.scheme, base.authority, JoinPath(segments), query, None)
  {
    JoinPathShape(segments);
    AbsolutePathReference(base, JoinPath(segments), query);
  }


  /**
   * A reference that starts with "//" is a network-path reference (section 4.2
   * of RFC 3986): the text up to the next "/", "?" or "#" becomes the authority,
   * replacing the base's host; only the base's scheme is kept.
   */
  lemma NetworkPathReference(base: Uri, host: string, rest: string)
    requires base.scheme.Some?
    requires NoneOf(host, AuthorityEnd)
    requires rest == "" || rest[0] in AuthorityEnd
    ensures Resolve(base, Parse("//" + host + rest)).scheme == base.scheme
    ensures Resolve(base, Parse("//" + host + rest)).authority == Some(host)
  {
    var s := "//" + host + rest;
    assert SplitScheme(s) == (None, s) by {
      assert s[0] == '/';
    }
    assert s[..2] == "//" && s[2..] == host + rest;
    assert IndexOfAny(host + rest, AuthorityEnd) == |host| by {
      IndexOfAnyAppend(host, rest, AuthorityEnd);
      IndexOfAnyNone(host, AuthorityEnd);
    }
    assert (host + rest)[..|host|] == host;
    assert SplitAuthority(s).0 == Some(host);
  }

  /** The directory of a base with an authority is a non-empty path that ends with "/". */
  lemma BaseDirectoryShape(base: Uri)
    requires base.authority.Some?
    requires base.path == "" || base.path[0] == '/'
    ensures BaseDirectory(base) != "" && BaseDirectory(base)[|BaseDirectory(base)| - 1] == '/'
  {
  }

  /**
   * A reference whose path does not start with "/" is appended to the base's
   * directory: the base's path up to its last "/".
   */
  lemma RelativePathReference(base: Uri, path: string, query: Option<string>)
    requires base.scheme.Some? && base.authority.Some?
    requires base.path == "" || base.path[0] == '/'
    requires DotFree(BaseDirectory(base)[..|BaseDirectory(base)| - 1])
    requires path != "" && path[0] != '/' && NoSchemeColon(path)
    requires DotFree("/" + path) && NoneOf(path, PathEnd)
    requires query.Some? ==> NoneOf(query.value, QueryEnd)
    ensures BaseDirectory(base) != "" && BaseDirectory(base)[|BaseDirectory(base)| - 1] == '/'
    ensures Resolve(base, Parse(path + QueryText(query)))
         == Uri(base.scheme, base.authority, BaseDirectory(base) + path, query, None)
  {
    BaseDirectoryShape(base);
    var dir := BaseDirectory(base);
    assert Parse(path + QueryText(query)) == Uri(None, None, path, query, None) by {
      assert !StartsWith(path, "//") by {
        assert |path| >= 2 ==> path[..2][0] == path[0];
      }
      ParsePathAndQuery(path, query);
    }
    assert RemoveDotSegments(dir + path) == dir + path by {
      MergedDotFree(dir, path);
      RemoveDotsOfDotFree(dir + path, "");
      assert "" + (dir + path) == dir + path;
    }
  }

  lemma MergedDotFree(dir: string, path: string)
    requires dir != "" && dir[|dir| - 1] == '/'
    requires DotFree(dir[..|dir| - 1]) && DotFree("/" + path)
    ensures DotFree(dir + path)
  {
    var trimmed := dir[..|dir| - 1];
    DotFreeAppend(trimmed, "/" + path);
    assert trimmed + ("/" + path) == dir + path by {
      AppendSplit(trimmed, "/" + path, 1);
      assert ("/" + path)[..1] == "/" && ("/" + path)[1..] == path;
      assert trimmed + "/" == dir;
    }
  }
}
