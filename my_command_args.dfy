/**
 * MyCommandArgs: a strongly typed view of a CommandLineArgsHelper, with
 * required fields that fail when their key is absent, optional fields, and
 * a case-insensitive boolean.
 */
module CommandLineArgsHelperConsoleApp {
  import opened Wrappers
  import opened CommandLineArgsHelpers

  /** Upper case of an ASCII letter; every other character is left as it is. */
  function AsciiToUpper(c: char): char {
    if 'a' <= c <= 'z' then (c as int - 32) as char else c
  }

  /** `String.Equals(a, b, StringComparison.OrdinalIgnoreCase)` with ASCII case folding. */
  predicate EqualsIgnoreCase(a: string, b: string) {
    |a| == |b| && forall i :: 0 <= i < |a| ==> AsciiToUpper(a[i]) == AsciiToUpper(b[i])
  }

  /** The sixteen spellings of `true` in upper and lower case, listed letter by letter. */
  predicate IsSpellingOfTrue(v: string) {
    |v| == 4 && v[0] in "tT" && v[1] in "rR" && v[2] in "uU" && v[3] in "eE"
  }

  /** Comparing with `"true"` ignoring case accepts exactly the spellings of `true`. */
  lemma EqualsTrueIgnoringCase(v: string)
    ensures EqualsIgnoreCase(v, "true") <==> IsSpellingOfTrue(v)
  {
    if EqualsIgnoreCase(v, "true") {
      assert AsciiToUpper(v[0]) == 'T' && AsciiToUpper(v[1]) == 'R';
      assert AsciiToUpper(v[2]) == 'U' && AsciiToUpper(v[3]) == 'E';
    }
  }

  /** The message of the exception a null helper raises. */
  const ArgsRequired: string := "Command Line Parameters collection must be specified."

  /** The message of the exception a missing `size` raises. */
  const SizeRequired: string := "The Size argument is Required!"

  datatype MyCommandArgs = MyCommandArgs(args: CommandLineArgsHelper) {

    /** The constructor: a null helper is an ArgumentNullException for `args`. */
    static function New(args: CommandLineArgsHelper?): (r: Result<MyCommandArgs, ArgumentNullException>)
      ensures r.Success? <==> args != null
      ensures r.Success? ==> r.value.args == args
      ensures r.Failure? ==> r.error == ArgumentNullException("args", Some(ArgsRequired))
    {
      if args == null then Failure(ArgumentNullException("args", Some(ArgsRequired)))
      else Success(MyCommandArgs(args))
    }

    /** Required: the value of `size`, or an ArgumentNullException naming `size`. */
    function Size(): (r: Result<string, ArgumentNullException>)
      ensures r.Success? <==> "size" in args.Parameters
      ensures r.Success? ==> r.value == args.Parameters["size"]
      ensures r.Failure? ==> r.error == ArgumentNullException("size", Some(SizeRequired))
    {
      match args.Item("size")
      case Some(v) => Success(v)
      case None => Failure(ArgumentNullException("size", Some(SizeRequired)))
    }

    /** Optional with a default: the value of `height`, or the empty string. */
    function Height(): (r: string)
      ensures "height" in args.Parameters ==> r == args.Parameters["height"]
      ensures "height" !in args.Parameters ==> r == ""
    {
      match args.Item("height")
      case Some(v) => v
      case None => ""
    }

    /** Optional: the value of `day`, or null. */
    function Day(): (r: Option<string>)
      ensures r.Some? <==> "day" in args.Parameters
      ensures r.Some? ==> r.value == args.Parameters["day"]
    {
      args.Item("day")
    }

    /** Required through AssertArgumentNotNull: the value of `tgif`, or an ArgumentNullException naming `tgif`. */
    function Tgif(): (r: Result<string, ArgumentNullException>)
      ensures r.Success? <==> "tgif" in args.Parameters
      ensures r.Success? ==> r.value == args.Parameters["tgif"]
      ensures r.Failure? ==> r.error == ArgumentNullException("tgif", None)
    {
      AssertArgumentNotNull(args.Item("tgif"), "tgif")
    }

    /** Optional: the value of `AmINice` (the key is case-sensitive), or null. */
    function AmINice(): (r: Option<string>)
      ensures r.Some? <==> "AmINice" in args.Parameters
      ensures r.Some? ==> r.value == args.Parameters["AmINice"]
    {
      args.Item("AmINice")
    }

    /** True exactly when `debug` is bound to a spelling of `true`; false when it is absent. */
    function Debug(): (r: bool)
      ensures r <==> "debug" in args.Parameters && IsSpellingOfTrue(args.Parameters["debug"])
    {
      match args.Item("debug")
      case None => false
      case Some(v) =>
        EqualsTrueIgnoringCase(v);
        EqualsIgnoreCase(v, "true")
    }

    /** Optional: the value of `param1`, or null. */
    function Param1(): (r: Option<string>)
      ensures r.Some? <==> "param1" in args.Parameters
      ensures r.Some? ==> r.value == args.Parameters["param1"]
    {
      args.Item("param1")
    }

    /** Optional: the value of `param2Alone`, or null. */
    function Param2Alone(): (r: Option<string>)
      ensures r.Some? <==> "param2Alone" in args.Parameters
      ensures r.Some? ==> r.value == args.Parameters["param2Alone"]
    {
      args.Item("param2Alone")
    }

    /** Optional: the value of `param3`, or null. */
    function Param3(): (r: Option<string>)
      ensures r.Some? <==> "param3" in args.Parameters
      ensures r.Some? ==> r.value == args.Parameters["param3"]
    {
      args.Item("param3")
    }

    /** Optional: the value of `param4`, or null. */
    function Param4(): (r: Option<string>)
      ensures r.Some? <==> "param4" in args.Parameters
      ensures r.Some? ==> r.value == args.Parameters["param4"]
    {
      args.Item("param4")
    }

    /** Optional: the value of the key `param 6 with spaces`, or null. */
    function Param6WithSpaces(): (r: Option<string>)
      ensures r.Some? <==> "param 6 with spaces" in args.Parameters
      ensures r.Some? ==> r.value == args.Parameters["param 6 with spaces"]
    {
      args.Item("param 6 with spaces")
    }
  }
}
