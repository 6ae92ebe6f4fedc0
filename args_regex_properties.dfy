/** What the splitter and the cleaner of ArgsRegex do, stated without their scanning. */
module ArgsRegexProperties {
  import opened Wrappers
  import opened ArgsRegex

  /** s holds no `=` and no `:`. */
  predicate HasNoSeparator(s: string) {
    forall p :: 0 <= p < |s| ==> !IsSeparator(s[p])
  }

  function Min(a: nat, b: nat): nat {
    if a <= b then a else b
  }

  // ---------------------------------------------------------------------
  // Splitter
  // ---------------------------------------------------------------------

  /** An index where no attempt of the pattern succeeds holds no separator. */
  lemma NoMatchMeansNoSeparator(t: string, lo: nat, hi: nat)
    requires lo <= hi <= |t| && NoMatchIn(t, lo, hi)
    ensures HasNoSeparator(t[lo..hi])
  {
    forall p | 0 <= p < hi - lo
      ensures !IsSeparator(t[lo..hi][p])
    {
      assert t[lo..hi][p] == t[lo + p];
      assert MatchLength(t, lo + p) == 0;
    }
  }

  /** The text of one match: a separator anywhere, or a prefix at index 0. */
  lemma MatchText(t: string, c: Cut)
    requires IsMatch(t, c)
    ensures t[c.at..c.End()] in ["=", ":"] || (c.at == 0 && t[c.at..c.End()] in ["-", "--", "/"])
    ensures c.at > 0 ==> t[c.at..c.End()] in ["=", ":"]
    ensures t[c.at..c.End()] == "-" ==> |t| < 2 || t[1] != '-'
  {
    if MatchLength(t, c.at) == 2 {
      assert t[c.at..c.End()] == t[..2];
    } else {
      assert t[c.at..c.End()] == [t[c.at]];
    }
  }

  /** Split cuts t into at most three pieces that, with the removed delimiters put back between them, give t again. */
  lemma SplitRejoin(t: string)
    ensures |Split(t)| == |Delimiters(t)| + 1
    ensures Join(Split(t), Delimiters(t)) == t
  {
    var cs := Cuts(t);
    if |cs| == 1 {
      RejoinOneCut(t);
    } else if |cs| == 2 {
      RejoinTwoCuts(t);
    }
  }

  /** SplitRejoin when there is one cut. */
  lemma RejoinOneCut(t: string)
    requires |Cuts(t)| == 1
    ensures Join(Split(t), Delimiters(t)) == t
  {
    var c0, parts, ds := Cuts(t)[0], Split(t), Delimiters(t);
    assert IsMatch(t, c0);
    assert Join(parts, ds) == parts[0] + ds[0] + parts[1];
    assert t == t[..c0.at] + t[c0.at..c0.End()] + t[c0.End()..];
  }

  /** SplitRejoin when there are two cuts. */
  lemma RejoinTwoCuts(t: string)
    requires |Cuts(t)| == 2
    ensures Join(Split(t), Delimiters(t)) == t
  {
    var c0, c1 := Cuts(t)[0], Cuts(t)[1];
    assert IsMatch(t, c0) && IsMatch(t, c1);
    var p0, d0, p1 := t[..c0.at], t[c0.at..c0.End()], t[c0.End()..c1.at];
    var d1, p2 := t[c1.at..c1.End()], t[c1.End()..];
    assert Split(t) == [p0, p1, p2] && Delimiters(t) == [d0, d1];
    assert Join([p1, p2], [d1]) == p1 + d1 + p2;
    FiveSlices(t, c0.at, c0.End(), c1.at, c1.End());
  }

  /** Five consecutive slices of t put back together give t. */
  lemma FiveSlices(t: string, a: nat, b: nat, c: nat, d: nat)
    requires a <= b <= c <= d <= |t|
    ensures t[..a] + t[a..b] + (t[b..c] + t[c..d] + t[d..]) == t
  {
    assert t[b..c] + t[c..d] + t[d..] == t[b..];
    assert t[..a] + t[a..b] == t[..b];
  }

  /**
   * The delimiters Split removes: only the first can be a prefix (`-`, `--`
   * or `/`), and then the first piece is empty; a `--` prefix is taken whole.
   */
  lemma SplitDelimiters(t: string)
    ensures forall k :: 0 < k < |Delimiters(t)| ==> Delimiters(t)[k] in ["=", ":"]
    ensures 0 < |Delimiters(t)| ==>
              Delimiters(t)[0] in ["=", ":"] ||
              (Delimiters(t)[0] in ["-", "--", "/"] && Split(t)[0] == "")
    ensures 0 < |Delimiters(t)| && Delimiters(t)[0] == "-" ==> Split(t)[1] == "" || Split(t)[1][0] != '-'
  {
    var cs := Cuts(t);
    if |cs| > 0 {
      MatchText(t, cs[0]);
      if |cs| == 2 {
        MatchText(t, cs[1]);
      }
    }
  }

  /**
   * The cuts are the leftmost matches: every piece that is followed by a
   * delimiter holds no separator, nor does the last piece unless the cap of
   * three pieces was reached.
   */
  lemma SplitLeftmost(t: string)
    ensures forall k :: 0 <= k < |Split(t)| - 1 ==> HasNoSeparator(Split(t)[k])
    ensures |Split(t)| < 3 ==> HasNoSeparator(Split(t)[|Split(t)| - 1])
  {
    var cs := Cuts(t);
    if |cs| == 0 {
      NoMatchMeansNoSeparator(t, 0, |t|);
      assert t[0..|t|] == t;
    } else {
      assert IsMatch(t, cs[0]);
      NoMatchMeansNoSeparator(t, 0, cs[0].at);
      assert t[0..cs[0].at] == t[..cs[0].at];
      if |cs| == 1 {
        NoMatchMeansNoSeparator(t, cs[0].End(), |t|);
        assert t[cs[0].End()..|t|] == t[cs[0].End()..];
      } else {
        assert IsMatch(t, cs[1]);
        NoMatchMeansNoSeparator(t, cs[0].End(), cs[1].at);
      }
    }
  }

  /** Past index 0 the matches are exactly the separators, so the scan meets them one by one. */
  lemma {:induction false} ScanCountsSeparators(t: string, from: nat)
    requires 1 <= from <= |t|
    ensures NextMatch(t, from).None? <==> SeparatorCount(t[from..]) == 0
    ensures NextMatch(t, from).Some? ==>
              SeparatorCount(t[from..]) == 1 + SeparatorCount(t[NextMatch(t, from).value + 1..])
    decreases |t| - from
  {
    if from < |t| {
      assert t[from..][1..] == t[from + 1..];
      if MatchLength(t, from) == 0 {
        ScanCountsSeparators(t, from + 1);
      }
    }
  }

  /**
   * Split returns one piece more than the number of matches the pattern has
   * in the whole token, capped at three: `1 + min(2, #matches)`.
   */
  lemma SplitPartCount(t: string)
    ensures |Split(t)| == 1 + Min(2, MatchCount(t))
  {
    if |t| == 0 {
      assert t[0..] == [];
    } else if MatchLength(t, 0) > 0 {
      var lead := MatchLength(t, 0);
      ScanCountsSeparators(t, lead);
      if NextMatch(t, lead).Some? {
        ScanCountsSeparators(t, NextMatch(t, lead).value + 1);
      }
    } else {
      assert t[0..] == t;
      ScanCountsSeparators(t, 1);
      match NextMatch(t, 1)
      case None =>
      case Some(i) =>
        ScanCountsSeparators(t, i + 1);
    }
  }

  /** The scan finds the first index where the pattern matches. */
  lemma {:induction false} NextMatchFinds(t: string, from: nat, i: nat)
    requires from <= i < |t| && MatchLength(t, i) > 0
    requires forall p :: from <= p < i ==> !IsSeparator(t[p]) && (p == 0 ==> t[0] != '-' && t[0] != '/')
    ensures NextMatch(t, from) == Some(i)
    decreases i - from
  {
    if from < i {
      NextMatchFinds(t, from + 1, i);
    }
  }

  /** The scan finds nothing. */
  lemma {:induction false} NextMatchNone(t: string, from: nat)
    requires from <= |t|
    requires forall p :: from <= p < |t| ==> !IsSeparator(t[p]) && (p == 0 ==> t[0] != '-' && t[0] != '/')
    ensures NextMatch(t, from) == None
    decreases |t| - from
  {
    if from < |t| {
      NextMatchNone(t, from + 1);
    }
  }

  /** The three prefixes the splitter strips at the start of a token. */
  predicate IsPrefix(prefix: string) {
    prefix == "-" || prefix == "--" || prefix == "/"
  }

  /** `rest` after `prefix` leaves the prefix match as it is: after a single `-` it must not start with `-`. */
  predicate FitsAfter(prefix: string, rest: string) {
    prefix == "-" ==> rest == [] || rest[0] != '-'
  }

  /** A bare token: no separator, and no prefix at its start. */
  predicate IsBare(t: string) {
    HasNoSeparator(t) && (t == [] || (t[0] != '-' && t[0] != '/'))
  }

  /** A token starting with a prefix is cut there, the prefix taken whole. */
  lemma PrefixIsFirstMatch(prefix: string, rest: string)
    requires IsPrefix(prefix) && FitsAfter(prefix, rest)
    ensures NextMatch(prefix + rest, 0) == Some(0)
    ensures MatchLength(prefix + rest, 0) == |prefix|
  {
    var t := prefix + rest;
    assert t[0] == prefix[0];
    assert prefix == "--" ==> t[1] == '-';
    assert prefix == "-" && |t| >= 2 ==> t[1] == rest[0];
  }

  /** Split has a single piece, the token itself, exactly when the token is bare. */
  lemma SplitOnePiece(t: string)
    ensures |Split(t)| == 1 <==> IsBare(t)
    ensures |Split(t)| == 1 ==> Split(t)[0] == t
  {
    if IsBare(t) {
      NextMatchNone(t, 0);
    } else if !HasNoSeparator(t) {
      var p :| 0 <= p < |t| && IsSeparator(t[p]);
      assert MatchLength(t, p) > 0;
    } else {
      assert MatchLength(t, 0) > 0;
    }
  }

  /** `prefix + name`, name without a separator: two pieces, an empty one and the name. */
  lemma SplitFlagShape(prefix: string, name: string)
    requires IsPrefix(prefix) && FitsAfter(prefix, name) && HasNoSeparator(name)
    ensures Split(prefix + name) == ["", name]
  {
    var t := prefix + name;
    PrefixIsFirstMatch(prefix, name);
    forall p | |prefix| <= p < |t|
      ensures !IsSeparator(t[p])
    {
      assert t[p] == name[p - |prefix|];
    }
    NextMatchNone(t, |prefix|);
    assert t[|prefix|..] == name;
  }

  /**
   * `prefix + name + sep + value`, name without a separator: three pieces,
   * an empty one, the name and the value, whatever the value holds.
   */
  lemma SplitNameValueShape(prefix: string, name: string, sep: char, value: string)
    requires IsPrefix(prefix) && FitsAfter(prefix, name + [sep]) && HasNoSeparator(name) && IsSeparator(sep)
    ensures Split(prefix + name + [sep] + value) == ["", name, value]
  {
    var t := prefix + name + [sep] + value;
    assert t == prefix + (name + [sep] + value);
    assert (name + [sep] + value)[0] == (name + [sep])[0];
    PrefixIsFirstMatch(prefix, name + [sep] + value);
    var at := |prefix| + |name|;
    forall p | |prefix| <= p < at
      ensures !IsSeparator(t[p]) && (p == 0 ==> t[0] != '-' && t[0] != '/')
    {
      assert t[p] == name[p - |prefix|];
    }
    assert t[at] == sep;
    NextMatchFinds(t, |prefix|, at);
    assert t[|prefix|..at] == name;
    assert t[at + 1..] == value;
  }

  /** `/param3:"Test-:-work"`: the value after the first separator keeps its own `-` and `:`. */
  lemma SplitKeepsLaterSeparators()
    ensures Split("/param3:\"Test-:-work\"") == ["", "param3", "\"Test-:-work\""]
  {
    assert "/param3:\"Test-:-work\"" == "/" + "param3" + [':'] + "\"Test-:-work\"";
    SplitNameValueShape("/", "param3", ':', "\"Test-:-work\"");
  }

  // The splits of `--=nice=--`, `--debug` and `value1` are in ParseExamples
  // (SplitNice, SplitDebug, Value1), next to the command lines that use them.

  /** `a=b`: no prefix is needed for a separator to cut, so this is two pieces. */
  lemma SplitWithoutPrefix()
    ensures Split("a=b") == ["a", "b"]
  {
    var t := "a=b";
    assert NextMatch(t, 2) == None;
    assert NextMatch(t, 0) == Some(1);
    assert Cuts(t) == [Cut(1, 1)];
    assert t[..1] == "a" && t[2..] == "b";
  }

  /** `http://x`: the `/` after index 0 is not a prefix, the `:` cuts. */
  lemma SplitUrl()
    ensures Split("http://x") == ["http", "//x"]
  {
    var t := "http://x";
    assert NextMatch(t, 5) == None;
    assert NextMatch(t, 0) == Some(4);
    assert Cuts(t) == [Cut(4, 1)];
    assert t[..4] == "http" && t[5..] == "//x";
  }

  // ---------------------------------------------------------------------
  // Cleaner
  // ---------------------------------------------------------------------

  /** A line that neither starts nor ends with a quote comes back unchanged. */
  lemma CleanUnquoted(s: string)
    requires '\n' !in s
    requires s == [] || (!IsQuote(s[0]) && !IsQuote(s[|s| - 1]))
    ensures Clean(s) == s
  {
  }

  /** One enclosing pair of quotes is removed, whether or not the two quote characters agree. */
  lemma CleanQuoted(s: string, open: char, v: string, close: char)
    requires s == [open] + v + [close] && IsQuote(open) && IsQuote(close) && '\n' !in v
    ensures Clean(s) == v
  {
    assert s[|s| - 1] == close;
    assert '\n' !in s;
    assert s[1..|s| - 1] == v;
  }

  /** A leading quote alone is removed. */
  lemma CleanLeadingQuote(open: char, v: string)
    requires IsQuote(open) && '\n' !in v
    requires v == [] || !IsQuote(v[|v| - 1])
    ensures Clean([open] + v) == v
  {
    var s := [open] + v;
    assert '\n' !in s;
    assert s[1..] == v;
  }

  /** A trailing quote alone is removed. */
  lemma CleanTrailingQuote(v: string, close: char)
    requires IsQuote(close) && '\n' !in v
    requires v == [] || !IsQuote(v[0])
    ensures Clean(v + [close]) == v
  {
    var s := v + [close];
    assert '\n' !in s;
    assert s[|s| - 1] == close;
    assert v != [] ==> s[0] == v[0];
    assert s[..|s| - 1] == v;
  }

  /** A final newline stays after the cleaned line. */
  lemma CleanKeepsFinalNewline(v: string)
    requires '\n' !in v
    ensures Clean(v + "\n") == Clean(v) + "\n"
  {
    assert (v + "\n")[..|v|] == v;
  }

  /** A newline before the last character makes the pattern fail, so nothing is removed. */
  lemma CleanSkipsInnerNewline(s: string, k: nat)
    requires k < |s| - 1 && s[k] == '\n'
    ensures Clean(s) == s
  {
    assert s[..|s| - 1][k] == '\n';
  }

  /** Only one layer of quotes goes. */
  lemma CleanExamples()
    ensures Clean("'400'") == "400"
    ensures Clean("'abc\"") == "abc"
    ensures Clean("''x''") == "'x'"
    ensures Clean("\"") == ""
    ensures Clean("true") == "true"
  {
  }
}
