/**
 * CommandLineArgsHelper: one left-to-right pass over the command-line
 * tokens that keeps a single pending parameter name and a dictionary that
 * only ever grows, giving an immutable map from parameter name to value.
 *
 * The functions Bind, Step, Run and Parse describe the pass on values; the
 * class CommandLineArgsHelper holds the pass as the source writes it, a loop
 * over the tokens that adds to a dictionary in place, proved equal to Parse.
 */
module CommandLineArgsHelpers {
  import opened Wrappers
  import opened ArgsRegex

  /** The value a parameter without its own value gets: the default of TryInitParamInDictionary. */
  const FlagValue: string := "true"

  // ---------------------------------------------------------------------
  // The binder, on values
  // ---------------------------------------------------------------------

  /** TryInitParamInDictionary adds `parameter` only when it is not null, not empty and not yet a key. */
  predicate CanBind(m: map<string, string>, parameter: Option<string>) {
    parameter.Some? && parameter.value != "" && parameter.value !in m
  }

  /**
   * The dictionary after TryInitParamInDictionary(m, parameter, value): the
   * first writer wins, so an existing key is never overwritten and the only
   * key that can appear is `parameter`, bound to the cleaned value.
   */
  function Bind(m: map<string, string>, parameter: Option<string>, value: string): (m': map<string, string>)
    ensures m'.Keys == if CanBind(m, parameter) then m.Keys + {parameter.value} else m.Keys
    ensures forall k :: k in m ==> k in m' && m'[k] == m[k]
    ensures CanBind(m, parameter) ==> m'[parameter.value] == Clean(value)
  {
    if CanBind(m, parameter) then m[parameter.value := Clean(value)] else m
  }

  // ---------------------------------------------------------------------
  // The parse, on values
  // ---------------------------------------------------------------------

  /** What the loop of ParseArgumentsHelper carries from one token to the next. */
  datatype ParseState = ParseState(params: map<string, string>, lastParam: Option<string>)

  /** The state before the first token: no parameters, nothing pending. */
  const Initial: ParseState := ParseState(map[], None)

  /** One iteration of the loop: dispatch on the number of pieces `Split(text)` has. */
  function Step(st: ParseState, text: string): ParseState {
    var parts := Split(text);
    if |parts| == 1 then
      // a value for the pending parameter, if any
      ParseState(Bind(st.params, st.lastParam, parts[0]), None)
    else if |parts| == 2 then
      // a parameter alone: the pending one becomes a flag, this one waits for a value
      ParseState(Bind(st.params, st.lastParam, FlagValue), Some(parts[1]))
    else if CanBind(st.params, Some(parts[1])) then
      // a parameter with its value: the pending one becomes a flag
      ParseState(Bind(Bind(st.params, Some(parts[1]), parts[2]), st.lastParam, FlagValue), None)
    else
      // the name is empty or taken: the whole token is the pending parameter's value
      ParseState(Bind(st.params, st.lastParam, text), None)
  }

  /** The state after the loop has consumed all of `tokens`. */
  function Run(tokens: seq<string>): ParseState
    decreases |tokens|
  {
    if tokens == [] then Initial else Step(Run(tokens[..|tokens| - 1]), tokens[|tokens| - 1])
  }

  /**
   * ParseArgumentsHelper on values: a null or empty array gives an empty
   * map; otherwise the loop runs and a parameter still pending is a flag.
   * `None` stands for a null array.
   */
  function Parse(argsArray: Option<seq<string>>): map<string, string> {
    if argsArray.None? || |argsArray.value| == 0 then map[]
    else
      var st := Run(argsArray.value);
      Bind(st.params, st.lastParam, FlagValue)
  }

  // ---------------------------------------------------------------------
  // The imperative parser
  // ---------------------------------------------------------------------

  /** The mutable `Dictionary<string, string>` the parse fills. */
  class StringDictionary {
    var entries: map<string, string>

    constructor ()
      ensures entries == map[]
    {
      entries := map[];
    }

    /** `Dictionary.Add`, which throws on a key already present; its caller checks first. */
    method Add(key: string, value: string)
      requires key !in entries
      modifies this
      ensures entries == old(entries)[key := value]
    {
      entries := entries[key := value];
    }
  }

  class CommandLineArgsHelper {
    /** The parsed parameters, fixed at construction. */
    const Parameters: map<string, string>

    /** Parses `argsArray` (`None` for a null array). */
    constructor (argsArray: Option<seq<string>>)
      ensures Parameters == Parse(argsArray)
    {
      var paramsDictionary := ParseArgumentsHelper(argsArray);
      Parameters := paramsDictionary;
    }

    /** The loop over the tokens, with the dictionary updated in place. */
    static method ParseArgumentsHelper(argsArray: Option<seq<string>>) returns (parameters: map<string, string>)
      ensures parameters == Parse(argsArray)
    {
      var paramsDictionary := new StringDictionary();
      if argsArray.None? || |argsArray.value| == 0 {
        return paramsDictionary.entries;
      }
      var args := argsArray.value;
      var lastParam: Option<string> := None;
      for i := 0 to |args|
        invariant ParseState(paramsDictionary.entries, lastParam) == Run(args[..i])
      {
        var text := args[i];
        var partsArray := Split(text);
        if |partsArray| == 1 {
          var _ := TryInitParamInDictionary(paramsDictionary, lastParam, partsArray[0]);
          lastParam := None;
        } else if |partsArray| == 2 {
          var _ := TryInitParamInDictionary(paramsDictionary, lastParam, FlagValue);
          lastParam := Some(partsArray[1]);
        } else {
          var added := TryInitParamInDictionary(paramsDictionary, Some(partsArray[1]), partsArray[2]);
          if !added {
            var _ := TryInitParamInDictionary(paramsDictionary, lastParam, text);
          } else {
            var _ := TryInitParamInDictionary(paramsDictionary, lastParam, FlagValue);
          }
          lastParam := None;
        }
        assert args[..i + 1][..i] == args[..i];
      }
      assert args[..|args|] == args;
      var _ := TryInitParamInDictionary(paramsDictionary, lastParam, FlagValue);
      parameters := paramsDictionary.entries;
    }

    /** Adds `parameter` with the cleaned value unless it is null, empty or already a key; reports whether it did. */
    static method TryInitParamInDictionary(paramDictionary: StringDictionary, parameter: Option<string>, value: string)
      returns (added: bool)
      modifies paramDictionary
      ensures added == CanBind(old(paramDictionary.entries), parameter)
      ensures paramDictionary.entries == Bind(old(paramDictionary.entries), parameter, value)
    {
      if parameter.Some? && parameter.value != "" && parameter.value !in paramDictionary.entries {
        var cleanedValue := Clean(value);
        paramDictionary.Add(parameter.value, cleanedValue);
        return true;
      }
      return false;
    }

    /** The indexer `this[name]`: the bound value, or `None` (null) for a name never bound. */
    function Item(name: string): (r: Option<string>)
      ensures r.Some? <==> name in Parameters
      ensures r.Some? ==> r.value == Parameters[name]
    {
      GetValueOrDefault(Parameters, name, None)
    }
  }

  // ---------------------------------------------------------------------
  // CustomExtensionHelpers
  // ---------------------------------------------------------------------

  /** `System.ArgumentNullException`: the parameter name and the message, if one was given. */
  datatype ArgumentNullException = ArgumentNullException(paramName: string, message: Option<string>)

  /** `argument.AssertArgumentNotNull(argumentName)`: the argument itself, or an exception naming it when it is null. */
  function AssertArgumentNotNull<T>(argument: Option<T>, argumentName: string): (r: Result<T, ArgumentNullException>)
    ensures r.Success? <==> argument.Some?
    ensures r.Success? ==> r.value == argument.value
    ensures r.Failure? ==> r.error == ArgumentNullException(argumentName, None)
  {
    match argument
    case Some(v) => Success(v)
    case None => Failure(ArgumentNullException(argumentName, None))
  }

  /**
   * `dictionary.GetValueOrDefault(key, defaultValue)`: the value bound to
   * key, or the default; the values are wrapped in `Some` so that a default
   * of `default(V)`, a null reference, is `None`. Neither the dictionary nor
   * the key can be null here, so the two null checks cannot fail.
   */
  function GetValueOrDefault<K, V>(dictionary: map<K, V>, key: K, defaultValue: Option<V>): (r: Option<V>)
    ensures key in dictionary ==> r == Some(dictionary[key])
    ensures key !in dictionary ==> r == defaultValue
  {
    if key in dictionary then Some(dictionary[key]) else defaultValue
  }
}
