/**
 * The login page's choice of where to send the user: the web-application
 * name taken from a URL path, and the base URL, cancel URL and project
 * derived from the `redirectUri` parameter. The JavaScript string
 * operations they use (`substring`, `indexOf`, `split`) are modelled with
 * their clamping and not-found conventions.
 */
module LoginForm {
  import opened Wrappers

  // ---------------------------------------------------------------------
  // JavaScript string operations

  /** A `substring` index forced into [0, len]: below 0 becomes 0, past the end becomes len. */
  function Clamp(k: int, len: nat): (c: nat)
    ensures c <= len
    ensures 0 <= k <= len ==> c == k
    ensures k <= 0 ==> c == 0
    ensures k >= len ==> c == len
  {
    if k < 0 then 0 else if k > len then len else k
  }

  /** `s.substring(start, end)`: both ends clamped to [0, |s|], and swapped when start > end. */
  function Substring(s: string, start: int, end: int): (r: string)
    ensures 0 <= start <= end <= |s| ==> r == s[start..end]
    ensures 0 <= end <= start <= |s| ==> r == s[end..start]
    ensures start <= 0 && 0 <= end <= |s| ==> r == s[..end]
    ensures 0 <= start <= |s| && |s| <= end ==> r == s[start..]
    ensures |r| <= |s|
  {
    var a, b := Clamp(start, |s|), Clamp(end, |s|);
    if a <= b then s[a..b] else s[b..a]
  }

  /**
   * Any pair of indices behaves as the pair clamped into [0, |s|]; with the
   * in-range cases above this settles `substring` for every argument.
   */
  lemma SubstringClamps(s: string, start: int, end: int)
    ensures Substring(s, start, end) == Substring(s, Clamp(start, |s|), Clamp(end, |s|))
  {
  }

  /** `s.indexOf(c)`: the first position of `c`, or -1 when there is none. */
  function IndexOf(s: string, c: char): (r: int)
    ensures r == -1 <==> c !in s
    ensures r != -1 ==> 0 <= r < |s| && s[r] == c && c !in s[..r]
  {
    if |s| == 0 then -1
    else if s[0] == c then 0
    else
      var k := IndexOf(s[1..], c);
      if k == -1 then -1
      else
        assert s[..k + 1] == [s[0]] + s[1..][..k];
        k + 1
  }

  /** `s.split(c)`: the pieces between the occurrences of `c`; never empty. */
  function Split(s: string, c: char): (parts: seq<string>)
    ensures |parts| >= 1
    decreases |s|
  {
    var k := IndexOf(s, c);
    if k == -1 then [s] else [s[..k]] + Split(s[k + 1..], c)
  }

  /** No piece of a split contains the separator. */
  lemma {:induction false} SplitPiecesLackSeparator(s: string, c: char)
    ensures forall i :: 0 <= i < |Split(s, c)| ==> c !in Split(s, c)[i]
    decreases |s|
  {
    var k := IndexOf(s, c);
    if k != -1 {
      var rest := s[k + 1..];
      SplitPiecesLackSeparator(rest, c);
      assert Split(s, c) == [s[..k]] + Split(rest, c);
    }
  }

  /** The pieces glued back together with `c` between them. */
  function Join(parts: seq<string>, c: char): string
    requires |parts| >= 1
  {
    if |parts| == 1 then parts[0] else parts[0] + [c] + Join(parts[1..], c)
  }

  /** Splitting loses nothing: joining the pieces gives the string back. */
  lemma {:induction false} JoinSplit(s: string, c: char)
    ensures Join(Split(s, c), c) == s
    decreases |s|
  {
    var k := IndexOf(s, c);
    if k == -1 {
      assert Split(s, c) == [s];
    } else {
      var head, rest := s[..k], s[k + 1..];
      JoinSplit(rest, c);
      SplitAtSeparator(s, c);
      JoinCons(head, Split(rest, c), c);
      SplitAround(s, k);
    }
  }

  /** Split, one step: the piece before the first `c`, then the pieces after it. */
  lemma SplitAtSeparator(s: string, c: char)
    requires c in s
    ensures Split(s, c) == [s[..IndexOf(s, c)]] + Split(s[IndexOf(s, c) + 1..], c)
  {
  }

  lemma SplitAround(s: string, k: nat)
    requires k < |s|
    ensures s == s[..k] + [s[k]] + s[k + 1..]
  {
  }

  lemma JoinCons(head: string, pieces: seq<string>, c: char)
    requires |pieces| >= 1
    ensures Join([head] + pieces, c) == head + [c] + Join(pieces, c)
  {
    assert ([head] + pieces)[1..] == pieces;
  }

  /** Pieces without `c` are recovered by splitting their join. */
  lemma {:induction false} SplitJoin(parts: seq<string>, c: char)
    requires |parts| >= 1
    requires forall i :: 0 <= i < |parts| ==> c !in parts[i]
    ensures Split(Join(parts, c), c) == parts
  {
    if |parts| > 1 {
      var tail := parts[1..];
      assert forall i :: 0 <= i < |tail| ==> tail[i] == parts[i + 1];
      SplitJoin(tail, c);
      assert Join(parts, c) == parts[0] + ([c] + Join(tail, c));
      SplitAtFirst(parts[0], c, Join(tail, c));
      assert parts == [parts[0]] + tail;
    } else {
      assert Join(parts, c) == parts[0];
    }
  }

  /** Splitting p + [c] + t, where p has no `c`, gives p and then the pieces of t. */
  lemma SplitAtFirst(p: string, c: char, t: string)
    requires c !in p
    ensures Split(p + ([c] + t), c) == [p] + Split(t, c)
  {
    var s := p + ([c] + t);
    FirstOccurrenceAfter(p, c, t);
    assert s[..|p|] == p;
    assert s[|p| + 1..] == t;
  }

  /** In p + [c] + t, where p has no `c`, the first `c` sits right after p. */
  lemma FirstOccurrenceAfter(p: string, c: char, t: string)
    requires c !in p
    ensures IndexOf(p + ([c] + t), c) == |p|
  {
    var s := p + ([c] + t);
    assert s[|p|] == c;
    assert s[..|p|] == p;
  }

  // ---------------------------------------------------------------------
  // getWebappName

  /** `pathname.substring(1)`: the path without its first character ("" stays ""). */
  function DropFirst(pathname: string): (r: string)
    ensures pathname == "" ==> r == ""
    ensures pathname != "" ==> pathname == [pathname[0]] + r
  {
    Substring(pathname, 1, |pathname|)
  }

  /**
   * `getWebappName`: the text after the first character, up to but not
   * including the next '/', or all of it when no '/' follows.
   */
  function GetWebappName(pathname: string): (name: string)
    ensures '/' !in name
    ensures name <= DropFirst(pathname)
    ensures |name| == |DropFirst(pathname)| || DropFirst(pathname)[|name|] == '/'
  {
    var webappName := DropFirst(pathname);
    var nextSlashIndex := IndexOf(webappName, '/');
    if nextSlashIndex != -1 then Substring(webappName, 0, nextSlashIndex) else webappName
  }

  /**
   * The name is determined by the three properties above: whenever the path
   * after its first character is `w + rest` with no '/' in `w` and `rest`
   * empty or starting with '/', the name is `w`.
   */
  lemma GetWebappNameUnique(pathname: string, w: string, rest: string)
    requires DropFirst(pathname) == w + rest
    requires '/' !in w
    requires rest == "" || rest[0] == '/'
    ensures GetWebappName(pathname) == w
  {
    var name := GetWebappName(pathname);
    var tail := DropFirst(pathname);
    assert name == tail[..|name|];
    assert w == tail[..|w|];
  }

  // ---------------------------------------------------------------------
  // baseUrl, cancelUrl and project

  /**
   * What `parseURL(redirectUri)` exposes: protocol (with its ':'), host,
   * path, and the `redirectUrl` query parameter already URI-decoded
   * (`None` when the query has no such parameter).
   */
  datatype ParsedUrl = ParsedUrl(protocol: string, host: string, pathname: string, redirectUrl: Option<string>)

  /** The three values the page derives; a `None` project is JavaScript's `undefined`. */
  datatype LoginLinks = LoginLinks(baseUrl: string, cancelUrl: string, project: Option<string>)

  const DefaultBaseUrl: string := "http://eupathdb.org/eupathdb"
  const DefaultProject: string := "eupathdb"

  /** Sites whose name is replaced by the default project. */
  predicate IsGlobusLabel(name: string) {
    name == "globus" || name == "globusgenomics"
  }

  /**
   * The project for a host: its second-to-last '.'-separated label, with
   * the Globus sites mapped to the default project; `None` when the host
   * has no '.', where the page reads `hostParts[-1]` and gets `undefined`.
   */
  function ProjectOf(host: string): (r: Option<string>)
    ensures r.None? <==> |Split(host, '.')| < 2
    ensures r.Some? ==> !IsGlobusLabel(r.value)
    ensures r.Some? ==> r.value == DefaultProject || r.value in Split(host, '.')
  {
    var project := SecondToLast(Split(host, '.'));
    if project.Some? && IsGlobusLabel(project.value) then Some(DefaultProject) else project
  }

  /** `parts[parts.length - 2]`, which is `undefined` for fewer than two parts. */
  function SecondToLast(parts: seq<string>): (r: Option<string>)
    ensures r.Some? <==> |parts| >= 2
    ensures r.Some? ==> r.value in parts[..|parts| - 1]
  {
    if |parts| >= 2 then Some(parts[|parts| - 2]) else None
  }

  /**
   * The links for a `redirectUri` parameter (`None` when it is absent),
   * given the page's URL parser.
   */
  function LinksFor(redirectUri: Option<string>, parseUrl: string -> ParsedUrl): (r: LoginLinks)
    // without a redirect URI, or with an empty one, the page falls back to the portal
    ensures redirectUri.None? || redirectUri.value == "" ==>
      r.baseUrl == DefaultBaseUrl && r.cancelUrl == r.baseUrl && r.project == Some(DefaultProject)
    // otherwise the base URL is the referring site's web application ...
    ensures redirectUri.Some? && redirectUri.value != "" ==> var url := parseUrl(redirectUri.value);
      r.baseUrl == url.protocol + "//" + url.host + "/" + GetWebappName(url.pathname)
    // ... cancel goes back there unless a redirectUrl parameter names another page ...
    ensures redirectUri.Some? && redirectUri.value != "" ==> var url := parseUrl(redirectUri.value);
      r.cancelUrl == if url.redirectUrl.None? then r.baseUrl else url.redirectUrl.value
    // ... and the project comes from the host
    ensures redirectUri.Some? && redirectUri.value != "" ==> r.project == ProjectOf(parseUrl(redirectUri.value).host)
  {
    if redirectUri.None? || redirectUri.value == "" then
      LoginLinks(DefaultBaseUrl, DefaultBaseUrl, Some(DefaultProject))
    else
      var url := parseUrl(redirectUri.value);
      var webappName := GetWebappName(url.pathname);
      var baseUrl := url.protocol + "//" + url.host + "/" + webappName;
      var cancelUrl := if url.redirectUrl.None? then baseUrl else url.redirectUrl.value;
      LoginLinks(baseUrl, cancelUrl, ProjectOf(url.host))
  }

  /**
   * For a host made of two or more labels, the project is the
   * second-to-last label, or the default project for the Globus sites.
   */
  lemma ProjectOfLabels(labels: seq<string>)
    requires |labels| >= 2
    requires forall i :: 0 <= i < |labels| ==> '.' !in labels[i]
    ensures var second := labels[|labels| - 2];
      ProjectOf(Join(labels, '.')) == Some(if IsGlobusLabel(second) then DefaultProject else second)
  {
    var host := Join(labels, '.');
    SplitJoin(labels, '.');
    assert SecondToLast(Split(host, '.')) == Some(labels[|labels| - 2]);
  }

  /** A host without a '.' has no project. */
  lemma ProjectOfDotlessHost(host: string)
    requires '.' !in host
    ensures ProjectOf(host) == None
  {
  }

  /** Whatever the host, a project never contains a '.'. */
  lemma ProjectHasNoDot(host: string)
    ensures ProjectOf(host).Some? ==> '.' !in ProjectOf(host).value
  {
    SplitPiecesLackSeparator(host, '.');
  }
}
