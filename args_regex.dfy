/**
 * The two regular expressions of CommandLineArgsHelper, written out as
 * string functions:
 *
 *   splitter  `^-{1,2}|^\/|=|:`      used as `Regex.Split(text, 3)`
 *   cleaner   `^['"]?(.*?)['"]?$`    used as `Regex.Replace(value, "$1")`
 *
 * Neither pattern is affected by the IgnoreCase or Compiled options.
 */
module ArgsRegex {
  import opened Wrappers

  /** The separators `=` and `:` of the splitter. */
  predicate IsSeparator(c: char) {
    c == '=' || c == ':'
  }

  /** The quote characters `'` and `"` of the cleaner. */
  predicate IsQuote(c: char) {
    c == '\'' || c == '"'
  }

  // ---------------------------------------------------------------------
  // Splitter
  // ---------------------------------------------------------------------

  /**
   * Length of the text the splitter pattern matches when an attempt starts
   * at index i of t, or 0 when it does not match there. The alternatives are
   * tried in their written order: `^-{1,2}` (greedy, anchored at index 0),
   * `^\/` (anchored at index 0), `=`, `:`. No alternative matches the empty
   * string, so 0 unambiguously means "no match".
   */
  function MatchLength(t: string, i: nat): (n: nat)
    requires i < |t|
    ensures n <= 2 && i + n <= |t|
    ensures n == 2 ==> i == 0 && t[..2] == "--"
    ensures 0 < i ==> (n > 0 <==> IsSeparator(t[i])) && n <= 1
  {
    if i == 0 && 2 <= |t| && t[0] == '-' && t[1] == '-' then 2
    else if i == 0 && (t[0] == '-' || t[0] == '/') then 1
    else if IsSeparator(t[i]) then 1
    else 0
  }

  /** No attempt of the splitter pattern at an index in [lo, hi) succeeds. */
  predicate NoMatchIn(t: string, lo: nat, hi: nat) {
    forall p :: lo <= p < hi && p < |t| ==> MatchLength(t, p) == 0
  }

  /** The regex engine's scan: the leftmost index at or after `from` where the pattern matches. */
  function NextMatch(t: string, from: nat): (r: Option<nat>)
    requires from <= |t|
    ensures r.Some? ==> from <= r.value < |t| && MatchLength(t, r.value) > 0 && NoMatchIn(t, from, r.value)
    ensures r.None? ==> NoMatchIn(t, from, |t|)
    decreases |t| - from
  {
    if from == |t| then None
    else if MatchLength(t, from) > 0 then Some(from)
    else NextMatch(t, from + 1)
  }

  /** One match of the splitter: the text t[at..at + len] is removed. */
  datatype Cut = Cut(at: nat, len: nat) {
    function End(): nat {
      at + len
    }
  }

  /** c is a match the splitter pattern makes in t. */
  predicate IsMatch(t: string, c: Cut) {
    c.at < |t| && c.len == MatchLength(t, c.at) && c.len > 0
  }

  /**
   * The places `Regex.Split(t, 3)` cuts t: the first two leftmost,
   * non-overlapping matches of the pattern (a count of 3 allows at most
   * two cuts).
   */
  function Cuts(t: string): (cs: seq<Cut>)
    ensures |cs| <= 2
    ensures forall k :: 0 <= k < |cs| ==> IsMatch(t, cs[k])
    ensures |cs| == 0 ==> NoMatchIn(t, 0, |t|)
    ensures |cs| > 0 ==> NoMatchIn(t, 0, cs[0].at)
    ensures |cs| == 1 ==> cs[0].End() <= |t| && NoMatchIn(t, cs[0].End(), |t|)
    ensures |cs| == 2 ==> cs[0].End() <= cs[1].at && NoMatchIn(t, cs[0].End(), cs[1].at)
  {
    match NextMatch(t, 0)
    case None => []
    case Some(i) =>
      var first := Cut(i, MatchLength(t, i));
      match NextMatch(t, first.End())
      case None => [first]
      case Some(j) => [first, Cut(j, MatchLength(t, j))]
  }

  /** `Regex.Split(t, 3)`: the pieces of t between its cuts. */
  function Split(t: string): (parts: seq<string>)
    ensures 1 <= |parts| <= 3
    ensures |parts| == |Cuts(t)| + 1
  {
    var cs := Cuts(t);
    if |cs| == 0 then [t]
    else if |cs| == 1 then [t[..cs[0].at], t[cs[0].End()..]]
    else [t[..cs[0].at], t[cs[0].End()..cs[1].at], t[cs[1].End()..]]
  }

  /** The texts Split removes from t, in order. */
  function Delimiters(t: string): (ds: seq<string>)
    ensures |ds| == |Cuts(t)|
  {
    var cs := Cuts(t);
    if |cs| == 0 then []
    else if |cs| == 1 then [t[cs[0].at..cs[0].End()]]
    else [t[cs[0].at..cs[0].End()], t[cs[1].at..cs[1].End()]]
  }

  /** Puts pieces back together with a delimiter between each two. */
  function Join(parts: seq<string>, delims: seq<string>): string
    requires |parts| == |delims| + 1
    decreases |delims|
  {
    if delims == [] then parts[0] else parts[0] + delims[0] + Join(parts[1..], delims[1..])
  }

  /** Number of separator characters in s. */
  function SeparatorCount(s: string): nat
    decreases |s|
  {
    if s == [] then 0 else (if IsSeparator(s[0]) then 1 else 0) + SeparatorCount(s[1..])
  }

  /** Length of the match of the pattern at index 0 (a prefix, or a separator), 0 when none. */
  function LeadLength(t: string): nat {
    if |t| == 0 then 0 else MatchLength(t, 0)
  }

  /**
   * How many matches of the pattern t holds in all, with no cap: the match at
   * index 0, if any, and then every separator after it (past index 0 only
   * the one-character separators can match).
   */
  function MatchCount(t: string): nat {
    (if LeadLength(t) > 0 then 1 else 0) + SeparatorCount(t[LeadLength(t)..])
  }

  // ---------------------------------------------------------------------
  // Cleaner
  // ---------------------------------------------------------------------

  /**
   * The cleaner on a line without newlines: the optional leading quote is
   * taken greedily, the lazy group then stops before the last character when
   * that is a quote, so one leading and one trailing quote go, each on its own.
   */
  function CleanLine(s: string): string {
    var lead := if 0 < |s| && IsQuote(s[0]) then 1 else 0;
    var trail := if lead < |s| && IsQuote(s[|s| - 1]) then 1 else 0;
    s[lead..|s| - trail]
  }

  /**
   * `_cleanerRegex.Replace(s, "$1")`. The pattern's `.` does not match a
   * newline and its `$` matches at the end or just before a final newline:
   * a string with a newline before its last character does not match at all
   * and is returned unchanged; a final newline is kept after the cleaned line.
   */
  function Clean(s: string): (r: string)
    ensures |s| - 2 <= |r| <= |s|
  {
    if 0 < |s| && s[|s| - 1] == '\n' then
      var line := s[..|s| - 1];
      if '\n' in line then s else CleanLine(line) + "\n"
    else if '\n' in s then s
    else CleanLine(s)
  }
}
