/**
 * Worked command lines, each proved against Parse. The tokens are
 * parameters fixed by the precondition, and each proof goes through the
 * general lemmas about Split, Clean and Parse rather than evaluating the
 * literals.
 */
module ParseExamples {
  import opened Wrappers
  import opened ArgsRegex
  import opened ArgsRegexProperties
  import opened CommandLineArgsHelpers
  import opened ParseProperties
  import opened CommandLineArgsHelperConsoleApp

  /** A later binding of the same name is ignored: `-a=1 -a=2` gives `a = 1`. */
  lemma DuplicateNameIgnored(t1: string, t2: string)
    requires t1 == "-a=1" && t2 == "-a=2"
    ensures Parse(Some([t1, t2])) == map["a" := "1"]
  {
    var name, v1, v2 := "a", "1", "2";
    assert t1 == "-" + name + ['='] + v1 && t2 == "-" + name + ['='] + v2;
    SplitNameValueShape("-", name, '=', v1);
    SplitNameValueShape("-", name, '=', v2);
    ParseRepeatedName(t1, t2);
    CleanUnquoted(v1);
    assert map[name := Clean(v1)] == map[name := v1];
  }

  /** A flag at the end is `"true"`: `-debug` gives `debug = true`. */
  lemma LoneFlag(t: string)
    requires t == "-debug"
    ensures Parse(Some([t])) == map["debug" := "true"]
  {
    ParseFlag(t, "-", "debug");
  }

  /** A quoted value loses its quotes: `/day:"happy birthday"` gives `day = happy birthday`. */
  lemma QuotedValue(t: string)
    requires t == "/day:\"happy birthday\""
    ensures Parse(Some([t])) == map["day" := "happy birthday"]
  {
    ParseQuotedValue(t, "/", "day", ':', '"', "happy birthday", '"');
  }

  /** Later separators stay in the value: `/param3:"Test-:-work"` gives `param3 = Test-:-work`. */
  lemma LaterSeparatorsInValue(t: string)
    requires t == "/param3:\"Test-:-work\""
    ensures Parse(Some([t])) == map["param3" := "Test-:-work"]
  {
    ParseQuotedValue(t, "/", "param3", ':', '"', "Test-:-work", '"');
  }

  /** Dashes inside a value stay: `/param4=--value4--` gives `param4 = --value4--`. */
  lemma DashesInValue(t: string)
    requires t == "/param4=--value4--"
    ensures Parse(Some([t])) == map["param4" := "--value4--"]
  {
    ParseUnquotedValue(t, "/", "param4", '=', "--value4--");
  }

  /** `-param5` splits into an empty piece and the name. */
  lemma SplitParam5(t: string)
    requires t == "-param5"
    ensures Split(t) == ["", "param5"]
  {
    var name := "param5";
    assert t == "-" + name;
    SplitFlagShape("-", name);
  }

  /** `--=nice=--` splits into two empty pieces and the rest, which keeps its own `=`. */
  lemma SplitNice(t: string)
    requires t == "--=nice=--"
    ensures Split(t) == ["", "", "nice=--"]
  {
    var v := "nice=--";
    assert t == "--" + "" + ['='] + v;
    SplitNameValueShape("--", "", '=', v);
  }

  /** A token with an empty name is the pending parameter's value: `-param5 "--=nice=--"` gives `param5 = --=nice=--`. */
  lemma EmptyNameFallsBack(t1: string, t2: string)
    requires t1 == "-param5" && t2 == "--=nice=--"
    ensures Parse(Some([t1, t2])) == map["param5" := t2]
  {
    SplitParam5(t1);
    SplitNice(t2);
    CleanUnquoted(t2);
    ParseEmptyNameIsValue(t1, t2);
  }

  /** `--debug` splits into an empty piece and the name, the double dash taken whole. */
  lemma SplitDebug(t: string)
    requires t == "--debug"
    ensures Split(t) == ["", "debug"]
  {
    var name := "debug";
    assert t == "--" + name;
    SplitFlagShape("--", name);
  }

  /** `-param1` splits into an empty piece and the name. */
  lemma SplitParam1(t: string)
    requires t == "-param1"
    ensures Split(t) == ["", "param1"]
  {
    var name := "param1";
    assert t == "-" + name;
    SplitFlagShape("-", name);
  }

  /** `value1` is one piece, and cleaning leaves it as it is. */
  lemma Value1(t: string)
    requires t == "value1"
    ensures Split(t) == [t] && Clean(t) == t
  {
    SplitOnePiece(t);
    CleanUnquoted(t);
  }

  /** A flag, then a parameter with a separate value: `--debug -param1 value1` gives `debug = true, param1 = value1`. */
  lemma FlagThenSeparateValue(t1: string, t2: string, t3: string)
    requires t1 == "--debug" && t2 == "-param1" && t3 == "value1"
    ensures Parse(Some([t1, t2, t3])) == map["debug" := "true", "param1" := t3]
  {
    SplitDebug(t1);
    SplitParam1(t2);
    Value1(t3);
    ParseFlagThenParameterValue(t1, t2, t3);
  }

  /** Without `size` the required accessor fails, naming it, and `height` has its default. */
  lemma MissingSize(t: string, helper: CommandLineArgsHelper)
    requires t == "-debug" && helper.Parameters == Parse(Some([t]))
    ensures MyCommandArgs(helper).Size() == Failure(ArgumentNullException("size", Some(SizeRequired)))
    ensures MyCommandArgs(helper).Height() == ""
    ensures MyCommandArgs(helper).Debug()
  {
    LoneFlag(t);
  }

  /** The boolean accessor ignores case: `debug = True` reads as true. */
  lemma DebugIgnoresCase(helper: CommandLineArgsHelper)
    requires helper.Parameters == map["debug" := "True"]
    ensures MyCommandArgs(helper).Debug()
  {
  }
}
