/** What the parse promises: first writer wins, names and values come from the tokens, flags and fallbacks. */
module ParseProperties {
  import opened Wrappers
  import opened ArgsRegex
  import opened ArgsRegexProperties
  import opened CommandLineArgsHelpers

  /** Every entry of `small` is an entry of `big`, with the same value. */
  predicate Extends(big: map<string, string>, small: map<string, string>) {
    forall k :: k in small ==> k in big && big[k] == small[k]
  }

  /** The name a token with two or three pieces introduces. */
  predicate IsNameOf(name: string, token: string) {
    |Split(token)| >= 2 && Split(token)[1] == name
  }

  /** A value a token can supply: the whole token cleaned, or the value piece of a three-piece token cleaned. */
  predicate IsValueOf(value: string, token: string) {
    value == Clean(token) || (|Split(token)| == 3 && value == Clean(Split(token)[2]))
  }

  /** Every key of m is a name from some token; every value is the flag value or a value from some token. */
  ghost predicate FromTokens(tokens: seq<string>, m: map<string, string>) {
    forall k :: k in m ==>
      (exists tok :: tok in tokens && IsNameOf(k, tok)) &&
      (m[k] == FlagValue || exists tok :: tok in tokens && IsValueOf(m[k], tok))
  }

  /** A pending parameter, if any, is a name from some token. */
  ghost predicate PendingFromTokens(tokens: seq<string>, pending: Option<string>) {
    pending.Some? ==> exists tok :: tok in tokens && IsNameOf(pending.value, tok)
  }

  // ---------------------------------------------------------------------
  // Empty input
  // ---------------------------------------------------------------------

  /** A null or empty token array gives an empty map. */
  lemma ParseEmpty()
    ensures Parse(None) == map[]
    ensures Parse(Some([])) == map[]
  {
  }

  // ---------------------------------------------------------------------
  // The state after a prefix of the tokens
  // ---------------------------------------------------------------------

  /** The state after i + 1 tokens is one Step from the state after i. */
  lemma RunStep(tokens: seq<string>, i: nat)
    requires i < |tokens|
    ensures Run(tokens[..i + 1]) == Step(Run(tokens[..i]), tokens[i])
  {
    assert tokens[..i + 1][..i] == tokens[..i];
  }

  /** One token alone: one Step from the initial state. */
  lemma RunSingle(t: string)
    ensures Run([t]) == Step(Initial, t)
  {
    RunStep([t], 0);
    assert [t][..0] == [] && [t][..1] == [t];
  }

  /** Two tokens: two Steps from the initial state. */
  lemma RunPair(t1: string, t2: string)
    ensures Run([t1, t2]) == Step(Step(Initial, t1), t2)
  {
    var ts := [t1, t2];
    RunStep(ts, 0);
    RunStep(ts, 1);
    assert ts[..0] == [] && ts[..1] == [t1] && ts[..2] == ts;
  }

  /** Three tokens: three Steps from the initial state. */
  lemma RunTriple(t1: string, t2: string, t3: string)
    ensures Run([t1, t2, t3]) == Step(Step(Step(Initial, t1), t2), t3)
  {
    var ts := [t1, t2, t3];
    RunStep(ts, 2);
    assert ts[..2] == [t1, t2] && ts[..3] == ts;
    RunPair(t1, t2);
  }

  /** The state after some tokens and one more is one Step from the state after those tokens. */
  lemma RunSnoc(tokens: seq<string>, t: string)
    ensures Run(tokens + [t]) == Step(Run(tokens), t)
  {
    assert (tokens + [t])[..|tokens|] == tokens;
  }

  /** A token never removes or changes an entry. */
  lemma StepExtends(st: ParseState, text: string)
    ensures Extends(Step(st, text).params, st.params)
    ensures "" !in st.params ==> "" !in Step(st, text).params
  {
  }

  /** The map only grows: the entries bound after i tokens are still there, unchanged, after all of them. */
  lemma {:induction false} RunExtends(tokens: seq<string>, i: nat)
    requires i <= |tokens|
    ensures Extends(Run(tokens).params, Run(tokens[..i]).params)
    decreases |tokens|
  {
    if i < |tokens| {
      var prev := tokens[..|tokens| - 1];
      assert prev[..i] == tokens[..i];
      RunExtends(prev, i);
      StepExtends(Run(prev), tokens[|tokens| - 1]);
    } else {
      assert tokens[..i] == tokens;
    }
  }

  /** First writer wins: a name bound after i tokens keeps that value in the final map. */
  lemma FirstBindingWins(tokens: seq<string>, i: nat, name: string)
    requires i <= |tokens| && name in Run(tokens[..i]).params
    ensures name in Parse(Some(tokens)) && Parse(Some(tokens))[name] == Run(tokens[..i]).params[name]
  {
    RunExtends(tokens, i);
  }

  /** The empty name is never a key. */
  lemma {:induction false} RunHasNoEmptyName(tokens: seq<string>)
    ensures "" !in Run(tokens).params
    decreases |tokens|
  {
    if tokens != [] {
      RunHasNoEmptyName(tokens[..|tokens| - 1]);
      StepExtends(Run(tokens[..|tokens| - 1]), tokens[|tokens| - 1]);
    }
  }

  /** The empty name is never a key of the parsed map. */
  lemma ParseHasNoEmptyName(argsArray: Option<seq<string>>)
    ensures "" !in Parse(argsArray)
  {
    if argsArray.Some? {
      RunHasNoEmptyName(argsArray.value);
    }
  }

  // ---------------------------------------------------------------------
  // Where names and values come from
  // ---------------------------------------------------------------------

  /** Binding a name and a value that come from the tokens keeps every entry traceable to them. */
  lemma BindFromTokens(tokens: seq<string>, m: map<string, string>, parameter: Option<string>, value: string)
    requires FromTokens(tokens, m) && PendingFromTokens(tokens, parameter)
    requires Clean(value) == FlagValue || exists tok :: tok in tokens && IsValueOf(Clean(value), tok)
    ensures FromTokens(tokens, Bind(m, parameter, value))
  {
  }

  /** One token keeps every entry and the pending name traceable to the tokens seen. */
  lemma StepFromTokens(tokens: seq<string>, st: ParseState, text: string)
    requires text in tokens
    requires FromTokens(tokens, st.params) && PendingFromTokens(tokens, st.lastParam)
    ensures FromTokens(tokens, Step(st, text).params) && PendingFromTokens(tokens, Step(st, text).lastParam)
  {
    var parts := Split(text);
    assert Clean(FlagValue) == FlagValue;
    assert IsValueOf(Clean(text), text);
    if |parts| == 1 {
      assert parts[0] == text;
      BindFromTokens(tokens, st.params, st.lastParam, parts[0]);
    } else if |parts| == 2 {
      assert IsNameOf(parts[1], text);
      BindFromTokens(tokens, st.params, st.lastParam, FlagValue);
    } else if CanBind(st.params, Some(parts[1])) {
      assert IsNameOf(parts[1], text) && IsValueOf(Clean(parts[2]), text);
      BindFromTokens(tokens, st.params, Some(parts[1]), parts[2]);
      BindFromTokens(tokens, Bind(st.params, Some(parts[1]), parts[2]), st.lastParam, FlagValue);
    } else {
      BindFromTokens(tokens, st.params, st.lastParam, text);
    }
  }

  /** Adding a token at the end keeps what came from the earlier ones. */
  lemma FromMoreTokens(tokens: seq<string>, text: string, st: ParseState)
    requires FromTokens(tokens, st.params) && PendingFromTokens(tokens, st.lastParam)
    ensures FromTokens(tokens + [text], st.params) && PendingFromTokens(tokens + [text], st.lastParam)
  {
    forall tok | tok in tokens
      ensures tok in tokens + [text]
    {
    }
  }

  /** Every key the loop binds is a name from a token, and every value is `"true"` or a value from a token. */
  lemma {:induction false} RunFromTokens(tokens: seq<string>)
    ensures FromTokens(tokens, Run(tokens).params)
    ensures PendingFromTokens(tokens, Run(tokens).lastParam)
    decreases |tokens|
  {
    if tokens != [] {
      var prev, text := tokens[..|tokens| - 1], tokens[|tokens| - 1];
      assert tokens == prev + [text];
      RunFromTokens(prev);
      FromMoreTokens(prev, text, Run(prev));
      StepFromTokens(tokens, Run(prev), text);
    }
  }

  /**
   * Every entry of the parsed map traces back to the tokens: its key is the
   * name piece of some token and its value is `"true"` (itself equal to
   * `Clean("true")`), a whole token cleaned, or the value piece of a token
   * cleaned.
   */
  lemma ParseFromTokens(tokens: seq<string>)
    ensures FromTokens(tokens, Parse(Some(tokens)))
  {
    if tokens != [] {
      RunFromTokens(tokens);
      assert Clean(FlagValue) == FlagValue;
      BindFromTokens(tokens, Run(tokens).params, Run(tokens).lastParam, FlagValue);
    }
  }

  // ---------------------------------------------------------------------
  // The pending parameter
  // ---------------------------------------------------------------------

  /** After a token, a parameter is pending exactly when the token had two pieces, and then it is the token's name. */
  lemma PendingAfterToken(tokens: seq<string>, i: nat)
    requires i < |tokens|
    ensures Run(tokens[..i + 1]).lastParam == if |Split(tokens[i])| == 2 then Some(Split(tokens[i])[1]) else None
  {
    RunStep(tokens, i);
  }

  /** A bare token with nothing pending is dropped: the map does not change. */
  lemma BareTokenWithoutPending(tokens: seq<string>, i: nat)
    requires i < |tokens| && |Split(tokens[i])| == 1 && Run(tokens[..i]).lastParam.None?
    ensures Run(tokens[..i + 1]).params == Run(tokens[..i]).params
  {
    RunStep(tokens, i);
  }

  /** A flag followed by a bare token gets that token, cleaned, as its value. */
  lemma FlagThenValue(tokens: seq<string>, i: nat)
    requires i + 1 < |tokens| && |Split(tokens[i])| == 2 && |Split(tokens[i + 1])| == 1
    requires CanBind(Run(tokens[..i + 1]).params, Some(Split(tokens[i])[1]))
    ensures Split(tokens[i])[1] in Parse(Some(tokens))
    ensures Parse(Some(tokens))[Split(tokens[i])[1]] == Clean(tokens[i + 1])
  {
    PendingAfterToken(tokens, i);
    StepValue(Run(tokens[..i + 1]), tokens[i + 1]);
    RunStep(tokens, i + 1);
    FirstBindingWins(tokens, i + 2, Split(tokens[i])[1]);
  }

  /** A flag followed by another flag is `"true"`. */
  lemma FlagThenFlag(tokens: seq<string>, i: nat)
    requires i + 1 < |tokens| && |Split(tokens[i])| == 2 && |Split(tokens[i + 1])| == 2
    requires CanBind(Run(tokens[..i + 1]).params, Some(Split(tokens[i])[1]))
    ensures Split(tokens[i])[1] in Parse(Some(tokens))
    ensures Parse(Some(tokens))[Split(tokens[i])[1]] == FlagValue
  {
    PendingAfterToken(tokens, i);
    StepFlagThenParameter(Run(tokens[..i + 1]), tokens[i + 1]);
    RunStep(tokens, i + 1);
    FirstBindingWins(tokens, i + 2, Split(tokens[i])[1]);
  }

  /** A flag at the end of the tokens is `"true"`. */
  lemma FlagAtEnd(tokens: seq<string>)
    requires 0 < |tokens| && |Split(tokens[|tokens| - 1])| == 2
    requires CanBind(Run(tokens).params, Some(Split(tokens[|tokens| - 1])[1]))
    ensures Split(tokens[|tokens| - 1])[1] in Parse(Some(tokens))
    ensures Parse(Some(tokens))[Split(tokens[|tokens| - 1])[1]] == FlagValue
  {
  }

  // ---------------------------------------------------------------------
  // Tokens with a name and a value
  // ---------------------------------------------------------------------

  /** A three-piece token whose name is non-empty and unbound binds that name to its value piece, cleaned. */
  lemma DirectBind(tokens: seq<string>, i: nat)
    requires i < |tokens| && |Split(tokens[i])| == 3
    requires CanBind(Run(tokens[..i]).params, Some(Split(tokens[i])[1]))
    ensures Split(tokens[i])[1] in Parse(Some(tokens))
    ensures Parse(Some(tokens))[Split(tokens[i])[1]] == Clean(Split(tokens[i])[2])
    ensures Run(tokens[..i + 1]).lastParam.None?
  {
    RunStep(tokens, i);
    FirstBindingWins(tokens, i + 1, Split(tokens[i])[1]);
  }

  /**
   * After a successful direct bind the parameter pending before it ends up
   * `"true"`, unless it is the name just bound or was already bound.
   */
  lemma DirectBindEndsPending(tokens: seq<string>, i: nat)
    requires i < |tokens| && |Split(tokens[i])| == 3
    requires CanBind(Run(tokens[..i]).params, Some(Split(tokens[i])[1]))
    requires Run(tokens[..i]).lastParam.Some? && Run(tokens[..i]).lastParam.value != ""
    ensures Run(tokens[..i]).lastParam.value in Parse(Some(tokens))
    ensures var before, name, pending := Run(tokens[..i]), Split(tokens[i])[1], Run(tokens[..i]).lastParam.value;
            Parse(Some(tokens))[pending] ==
              if pending == name then Clean(Split(tokens[i])[2])
              else if pending in before.params then before.params[pending]
              else FlagValue
  {
    var before, parts := Run(tokens[..i]), Split(tokens[i]);
    RunStep(tokens, i);
    assert Run(tokens[..i + 1]).params == Bind(Bind(before.params, Some(parts[1]), parts[2]), before.lastParam, FlagValue);
    BindThenFlag(before.params, parts[1], parts[2], before.lastParam.value);
    FirstBindingWins(tokens, i + 1, before.lastParam.value);
  }

  /** A direct bind of `name` followed by the flag bind of `pending`: what `pending` ends up with. */
  lemma BindThenFlag(m: map<string, string>, name: string, value: string, pending: string)
    requires CanBind(m, Some(name)) && pending != ""
    ensures var m' := Bind(Bind(m, Some(name), value), Some(pending), FlagValue);
            pending in m' &&
            m'[pending] == if pending == name then Clean(value) else if pending in m then m[pending] else FlagValue
  {
  }

  /**
   * A three-piece token whose name is empty or already bound is, as a whole
   * and cleaned, the value of the pending parameter, when that one can still
   * be bound; with nothing pending the token changes nothing.
   */
  lemma FallbackBind(tokens: seq<string>, i: nat)
    requires i < |tokens| && |Split(tokens[i])| == 3
    requires !CanBind(Run(tokens[..i]).params, Some(Split(tokens[i])[1]))
    ensures Run(tokens[..i + 1]).lastParam.None?
    ensures CanBind(Run(tokens[..i]).params, Run(tokens[..i]).lastParam) ==>
              Run(tokens[..i]).lastParam.value in Parse(Some(tokens)) &&
              Parse(Some(tokens))[Run(tokens[..i]).lastParam.value] == Clean(tokens[i])
    ensures !CanBind(Run(tokens[..i]).params, Run(tokens[..i]).lastParam) ==>
              Run(tokens[..i + 1]).params == Run(tokens[..i]).params
  {
    var before := Run(tokens[..i]);
    RunStep(tokens, i);
    if CanBind(before.params, before.lastParam) {
      FirstBindingWins(tokens, i + 1, before.lastParam.value);
    }
  }

  /** With nothing pending, a three-piece token with a fresh name binds that name to its cleaned value. */
  lemma StepNameValue(st: ParseState, text: string)
    requires |Split(text)| == 3 && CanBind(st.params, Some(Split(text)[1])) && st.lastParam.None?
    ensures Step(st, text) == ParseState(st.params[Split(text)[1] := Clean(Split(text)[2])], None)
  {
  }

  /** With nothing pending, a two-piece token binds nothing and makes its name pending. */
  lemma StepParameter(st: ParseState, text: string)
    requires |Split(text)| == 2 && st.lastParam.None?
    ensures Step(st, text) == ParseState(st.params, Some(Split(text)[1]))
  {
  }

  /** A one-piece token is the whole token; it binds the pending parameter, when that one can be bound, to it cleaned. */
  lemma StepValue(st: ParseState, text: string)
    requires |Split(text)| == 1 && CanBind(st.params, st.lastParam)
    ensures Step(st, text) == ParseState(st.params[st.lastParam.value := Clean(text)], None)
  {
    SplitRejoin(text);
  }

  /** A two-piece token turns the pending parameter, when it can be bound, into a flag and makes its own name pending. */
  lemma StepFlagThenParameter(st: ParseState, text: string)
    requires |Split(text)| == 2 && CanBind(st.params, st.lastParam)
    ensures Step(st, text) == ParseState(st.params[st.lastParam.value := FlagValue], Some(Split(text)[1]))
  {
    assert Clean(FlagValue) == FlagValue;
  }

  /** A three-piece token with a fresh name binds it, then turns the pending parameter, when it can be bound, into a flag. */
  lemma StepNameValueThenFlag(st: ParseState, text: string)
    requires |Split(text)| == 3 && CanBind(st.params, Some(Split(text)[1]))
    requires CanBind(st.params[Split(text)[1] := Clean(Split(text)[2])], st.lastParam)
    ensures Step(st, text) ==
            ParseState(st.params[Split(text)[1] := Clean(Split(text)[2])][st.lastParam.value := FlagValue], None)
  {
    assert Clean(FlagValue) == FlagValue;
  }

  /** A name given twice with a value: the second token binds nothing, so the first value stays. */
  lemma ParseRepeatedName(t1: string, t2: string)
    requires |Split(t1)| == 3 && |Split(t2)| == 3 && Split(t1)[1] != "" && Split(t2)[1] == Split(t1)[1]
    ensures Parse(Some([t1, t2])) == map[Split(t1)[1] := Clean(Split(t1)[2])]
  {
    RunPair(t1, t2);
    StepNameValue(Initial, t1);
  }

  /** A parameter alone, then a three-piece token with an empty name: the whole second token, cleaned, is its value. */
  lemma ParseEmptyNameIsValue(t1: string, t2: string)
    requires |Split(t1)| == 2 && Split(t1)[1] != "" && |Split(t2)| == 3 && Split(t2)[1] == ""
    ensures Parse(Some([t1, t2])) == map[Split(t1)[1] := Clean(t2)]
  {
    RunPair(t1, t2);
    StepParameter(Initial, t1);
  }

  /** Two parameters alone, then a one-piece token: the first is a flag, the second takes the token, cleaned. */
  lemma ParseFlagThenParameterValue(t1: string, t2: string, t3: string)
    requires |Split(t1)| == 2 && |Split(t2)| == 2 && |Split(t3)| == 1
    requires Split(t1)[1] != "" && Split(t2)[1] != "" && Split(t1)[1] != Split(t2)[1]
    ensures Parse(Some([t1, t2, t3])) == map[Split(t1)[1] := FlagValue, Split(t2)[1] := Clean(t3)]
  {
    RunTriple(t1, t2, t3);
    StepParameter(Initial, t1);
    var st1 := ParseState(map[], Some(Split(t1)[1]));
    StepFlagThenParameter(st1, t2);
    var st2 := ParseState(map[Split(t1)[1] := FlagValue], Some(Split(t2)[1]));
    StepValue(st2, t3);
  }

  // ---------------------------------------------------------------------
  // The supported token forms
  // ---------------------------------------------------------------------

  /** `-name=value`, `-name:value`, `--name=value`, `/name:value` alone: the one entry name -> value, cleaned. */
  lemma ParseNameValue(t: string, prefix: string, name: string, sep: char, value: string)
    requires t == prefix + name + [sep] + value
    requires IsPrefix(prefix) && FitsAfter(prefix, name + [sep]) && HasNoSeparator(name) && IsSeparator(sep)
    requires name != ""
    ensures Parse(Some([t])) == map[name := Clean(value)]
  {
    SplitNameValueShape(prefix, name, sep, value);
    RunSingle(t);
  }


  /** `-name="value"`, `/name:'value'` alone: the one entry name -> value, its enclosing quotes removed. */
  lemma ParseQuotedValue(t: string, prefix: string, name: string, sep: char, open: char, value: string, close: char)
    requires t == prefix + name + [sep] + ([open] + value + [close])
    requires IsPrefix(prefix) && FitsAfter(prefix, name + [sep]) && HasNoSeparator(name) && IsSeparator(sep)
    requires name != "" && IsQuote(open) && IsQuote(close) && '\n' !in value
    ensures Parse(Some([t])) == map[name := value]
  {
    ParseNameValue(t, prefix, name, sep, [open] + value + [close]);
    CleanQuoted([open] + value + [close], open, value, close);
  }

  /** `-name=value` alone with a value that has no quote at either end: the one entry name -> value, unchanged. */
  lemma ParseUnquotedValue(t: string, prefix: string, name: string, sep: char, value: string)
    requires t == prefix + name + [sep] + value
    requires IsPrefix(prefix) && FitsAfter(prefix, name + [sep]) && HasNoSeparator(name) && IsSeparator(sep)
    requires name != "" && '\n' !in value && (value == [] || (!IsQuote(value[0]) && !IsQuote(value[|value| - 1])))
    ensures Parse(Some([t])) == map[name := value]
  {
    ParseNameValue(t, prefix, name, sep, value);
    CleanUnquoted(value);
  }

  /** `-name value`: a flag followed by a bare token is the one entry name -> token, cleaned. */
  lemma ParseFlagValue(t1: string, t2: string, prefix: string, name: string)
    requires t1 == prefix + name && IsPrefix(prefix) && FitsAfter(prefix, name) && HasNoSeparator(name) && name != ""
    requires IsBare(t2)
    ensures Parse(Some([t1, t2])) == map[name := Clean(t2)]
  {
    SplitFlagShape(prefix, name);
    SplitOnePiece(t2);
    RunPair(t1, t2);
  }


  /** `-flagOnly`, `--flagOnly`, `/flagOnly` alone: the one entry name -> `"true"`. */
  lemma ParseFlag(t: string, prefix: string, name: string)
    requires t == prefix + name && IsPrefix(prefix) && FitsAfter(prefix, name) && HasNoSeparator(name) && name != ""
    ensures Parse(Some([t])) == map[name := FlagValue]
  {
    SplitFlagShape(prefix, name);
    RunSingle(t);
    assert Clean(FlagValue) == FlagValue;
  }

  // ---------------------------------------------------------------------
  // One iteration on each supported token form
  // ---------------------------------------------------------------------

  /** With nothing pending, `prefix + name + sep + value` with a fresh name binds it to the cleaned value. */
  lemma StepNameValueToken(st: ParseState, t: string, prefix: string, name: string, sep: char, value: string)
    requires t == prefix + name + [sep] + value
    requires IsPrefix(prefix) && FitsAfter(prefix, name + [sep]) && HasNoSeparator(name) && IsSeparator(sep)
    requires name != "" && name !in st.params && st.lastParam.None?
    ensures Step(st, t) == ParseState(st.params[name := Clean(value)], None)
  {
    SplitNameValueShape(prefix, name, sep, value);
    StepNameValue(st, t);
  }

  /** `prefix + name + sep + value` with a fresh name binds it, then turns the pending parameter into a flag. */
  lemma StepNameValueTokenThenFlag(st: ParseState, t: string, prefix: string, name: string, sep: char, value: string)
    requires t == prefix + name + [sep] + value
    requires IsPrefix(prefix) && FitsAfter(prefix, name + [sep]) && HasNoSeparator(name) && IsSeparator(sep)
    requires name != "" && name !in st.params && CanBind(st.params[name := Clean(value)], st.lastParam)
    ensures Step(st, t) == ParseState(st.params[name := Clean(value)][st.lastParam.value := FlagValue], None)
  {
    SplitNameValueShape(prefix, name, sep, value);
    StepNameValueThenFlag(st, t);
  }

  /** With nothing pending, `prefix + name` binds nothing and makes the name pending. */
  lemma StepParameterToken(st: ParseState, t: string, prefix: string, name: string)
    requires t == prefix + name && IsPrefix(prefix) && FitsAfter(prefix, name) && HasNoSeparator(name)
    requires st.lastParam.None?
    ensures Step(st, t) == ParseState(st.params, Some(name))
  {
    SplitFlagShape(prefix, name);
    StepParameter(st, t);
  }

  /** `prefix + name` turns the pending parameter into a flag and makes the name pending. */
  lemma StepFlagThenParameterToken(st: ParseState, t: string, prefix: string, name: string)
    requires t == prefix + name && IsPrefix(prefix) && FitsAfter(prefix, name) && HasNoSeparator(name)
    requires CanBind(st.params, st.lastParam)
    ensures Step(st, t) == ParseState(st.params[st.lastParam.value := FlagValue], Some(name))
  {
    SplitFlagShape(prefix, name);
    StepFlagThenParameter(st, t);
  }

  /** A bare token binds the pending parameter to it, cleaned. */
  lemma StepValueToken(st: ParseState, t: string)
    requires IsBare(t) && CanBind(st.params, st.lastParam)
    ensures Step(st, t) == ParseState(st.params[st.lastParam.value := Clean(t)], None)
  {
    SplitOnePiece(t);
    StepValue(st, t);
  }

  /** A fresh name with a quoted value and nothing pending: the value is bound without its quotes. */
  lemma StepQuotedValueToken(st: ParseState, t: string, prefix: string, name: string, sep: char, open: char, value: string, close: char)
    requires t == prefix + name + [sep] + ([open] + value + [close])
    requires IsPrefix(prefix) && FitsAfter(prefix, name + [sep]) && HasNoSeparator(name) && IsSeparator(sep)
    requires name != "" && IsQuote(open) && IsQuote(close) && '\n' !in value
    requires name !in st.params && st.lastParam.None?
    ensures Step(st, t) == ParseState(st.params[name := value], None)
  {
    StepNameValueToken(st, t, prefix, name, sep, [open] + value + [close]);
    CleanQuoted([open] + value + [close], open, value, close);
  }

  /** A fresh name with an unquoted value and nothing pending: the value is bound as it is. */
  lemma StepUnquotedValueToken(st: ParseState, t: string, prefix: string, name: string, sep: char, value: string)
    requires t == prefix + name + [sep] + value
    requires IsPrefix(prefix) && FitsAfter(prefix, name + [sep]) && HasNoSeparator(name) && IsSeparator(sep)
    requires name != "" && '\n' !in value && (value == [] || (!IsQuote(value[0]) && !IsQuote(value[|value| - 1])))
    requires name !in st.params && st.lastParam.None?
    ensures Step(st, t) == ParseState(st.params[name := value], None)
  {
    StepNameValueToken(st, t, prefix, name, sep, value);
    CleanUnquoted(value);
  }

  /** A fresh name with a quoted value binds it without its quotes, then the pending parameter becomes a flag. */
  lemma StepQuotedValueTokenThenFlag(st: ParseState, t: string, prefix: string, name: string, sep: char, open: char, value: string, close: char)
    requires t == prefix + name + [sep] + ([open] + value + [close])
    requires IsPrefix(prefix) && FitsAfter(prefix, name + [sep]) && HasNoSeparator(name) && IsSeparator(sep)
    requires name != "" && IsQuote(open) && IsQuote(close) && '\n' !in value
    requires name !in st.params && CanBind(st.params[name := value], st.lastParam)
    ensures Step(st, t) == ParseState(st.params[name := value][st.lastParam.value := FlagValue], None)
  {
    CleanQuoted([open] + value + [close], open, value, close);
    StepNameValueTokenThenFlag(st, t, prefix, name, sep, [open] + value + [close]);
  }

  /** A bare token without a quote at either end binds the pending parameter to it unchanged. */
  lemma StepUnquotedToken(st: ParseState, t: string)
    requires IsBare(t) && '\n' !in t && (t == [] || (!IsQuote(t[0]) && !IsQuote(t[|t| - 1])))
    requires CanBind(st.params, st.lastParam)
    ensures Step(st, t) == ParseState(st.params[st.lastParam.value := t], None)
  {
    CleanUnquoted(t);
    StepValueToken(st, t);
  }

  /** `states` lists the state before each token and after the last: each is one Step from the one before. */
  ghost predicate IsTrace(tokens: seq<string>, states: seq<ParseState>) {
    |states| == |tokens| + 1 && states[0] == Initial &&
    forall k :: 0 <= k < |tokens| ==> Step(states[k], tokens[k]) == states[k + 1]
  }

  /** Along a trace, the loop's state after the first `i` tokens is the `i`-th state. */
  lemma {:induction false} RunAlongTrace(tokens: seq<string>, states: seq<ParseState>, i: nat)
    requires IsTrace(tokens, states) && i <= |tokens|
    ensures Run(tokens[..i]) == states[i]
  {
    if i == 0 {
      assert tokens[..0] == [];
    } else {
      RunAlongTrace(tokens, states, i - 1);
      RunStep(tokens, i - 1);
    }
  }

  /** Run over the whole trace ends in its last state. */
  lemma RunTrace(tokens: seq<string>, states: seq<ParseState>)
    requires IsTrace(tokens, states)
    ensures Run(tokens) == states[|tokens|]
  {
    RunAlongTrace(tokens, states, |tokens|);
    assert tokens[..|tokens|] == tokens;
  }
}
