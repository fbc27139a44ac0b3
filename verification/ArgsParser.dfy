/** The command line of one subcommand: options with values, flags and positional arguments. */
module ArgsParser {
  import opened Wrappers
  import opened Texts

  datatype Args = Args(values: map<string, string>, flags: set<string>, positional: seq<string>) {
    function WithValue(name: string, value: string): Args { this.(values := values[name := value]) }
    function WithFlag(name: string): Args { this.(flags := flags + {name}) }
    function WithPositional(more: seq<string>): Args { this.(positional := positional + more) }
  }

  const EMPTY := Args(map[], {}, [])

  /** The option names a subcommand knows. */
  datatype Options = Options(valued: seq<string>, flags: seq<string>)

  /** `arg.split_once('=')`, with the whole argument as the name when there is no sign. */
  function NameOf(arg: string): string { if '=' in arg then arg[..IndexOf(arg, '=')] else arg }

  function InlineOf(arg: string): Option<string> {
    if '=' in arg then Some(arg[IndexOf(arg, '=') + 1..]) else None
  }

  predicate IsOption(arg: string) { "--" <= arg && arg != "--" }

  function NeedsValue(name: string): string { name + " needs a value" }

  function Unknown(arg: string): string { "unknown option " + arg + "; see jobctl --help" }

  function ParseFrom(raw: seq<string>, options: Options, args: Args): Result<Args, string>
    decreases |raw|
  {
    if raw == [] then Ok(args)
    else if raw[0] == "--" then Ok(args.WithPositional(raw[1..]))
    else if !IsOption(raw[0]) then ParseFrom(raw[1..], options, args.WithPositional([raw[0]]))
    else
      var name, inline := NameOf(raw[0]), InlineOf(raw[0]);
      if name in options.valued then
        if inline.Some? then ParseFrom(raw[1..], options, args.WithValue(name, inline.value))
        else if |raw| == 1 then Err(NeedsValue(name))
        else ParseFrom(raw[2..], options, args.WithValue(name, raw[1]))
      else if name in options.flags && inline.None? then ParseFrom(raw[1..], options, args.WithFlag(name))
      else Err(Unknown(raw[0]))
  }

  method Parse(raw: seq<string>, options: Options) returns (r: Result<Args, string>)
    ensures r == ParseFrom(raw, options, EMPTY)
  {
    var args := EMPTY;
    var i := 0;
    while i < |raw|
      invariant i <= |raw|
      invariant ParseFrom(raw, options, EMPTY) == ParseFrom(raw[i..], options, args)
    {
      var arg := raw[i];
      ghost var left := raw[i..];
      assert left[0] == arg && left[1..] == raw[i + 1..];
      assert |left| > 1 ==> left[1] == raw[i + 1] && left[2..] == raw[i + 2..];
      i := i + 1;
      if arg == "--" {
        args := args.WithPositional(raw[i..]);
        return Ok(args);
      }
      if !IsOption(arg) {
        args := args.WithPositional([arg]);
        continue;
      }
      var name, inline := NameOf(arg), InlineOf(arg);
      if name in options.valued {
        var value: string;
        if inline.Some? {
          value := inline.value;
        } else if i < |raw| {
          value := raw[i];
          i := i + 1;
        } else {
          return Err(NeedsValue(name));
        }
        args := args.WithValue(name, value);
      } else if name in options.flags && inline.None? {
        args := args.WithFlag(name);
      } else {
        return Err(Unknown(arg));
      }
    }
    return Ok(args);
  }

  // ---- the canonical printer ----

  type Pair = (string, string)

  function Inline(name: string, value: string): string { name + "=" + value }

  /** Values as `--name=value`, then flags, then `--` and the positional arguments. */
  function Render(values: seq<Pair>, flags: seq<string>, positional: seq<string>): seq<string> {
    if values != [] then [Inline(values[0].0, values[0].1)] + Render(values[1..], flags, positional)
    else if flags != [] then [flags[0]] + Render([], flags[1..], positional)
    else ["--"] + positional
  }

  /** `args` with the values and flags added in order, so that the last value of a name stands. */
  function Added(args: Args, values: seq<Pair>, flags: seq<string>): Args
    decreases |values|, |flags|
  {
    if values != [] then Added(args.WithValue(values[0].0, values[0].1), values[1..], flags)
    else if flags != [] then Added(args.WithFlag(flags[0]), [], flags[1..])
    else args
  }

  predicate IsValueName(name: string, options: Options) {
    "--" <= name && '=' !in name && name in options.valued
  }

  predicate IsFlagName(name: string, options: Options) {
    IsOption(name) && '=' !in name && name in options.flags && name !in options.valued
  }

  lemma InlineSplits(name: string, value: string)
    requires "--" <= name && '=' !in name
    ensures IsOption(Inline(name, value))
    ensures NameOf(Inline(name, value)) == name && InlineOf(Inline(name, value)) == Some(value)
  {
    IndexAfter(name, '=', value);
    var arg := Inline(name, value);
    assert arg[..|name|] == name && arg[|name| + 1..] == value;
  }

  /** Whatever the values and the positional arguments are, they are read as they were given. */
  lemma {:induction false} ParseRender(
    values: seq<Pair>, flags: seq<string>, positional: seq<string>, options: Options, args: Args)
    requires forall pair | pair in values :: IsValueName(pair.0, options)
    requires forall flag | flag in flags :: IsFlagName(flag, options)
    ensures ParseFrom(Render(values, flags, positional), options, args)
         == Ok(Added(args, values, flags).WithPositional(positional))
    decreases |values|, |flags|
  {
    var raw := Render(values, flags, positional);
    if values != [] {
      assert IsValueName(values[0].0, options);
      InlineSplits(values[0].0, values[0].1);
      hide NameOf, InlineOf, IsOption, Inline;
      assert raw[1..] == Render(values[1..], flags, positional);
      ParseRender(values[1..], flags, positional, options, args.WithValue(values[0].0, values[0].1));
    } else if flags != [] {
      assert IsFlagName(flags[0], options);
      assert raw[1..] == Render([], flags[1..], positional);
      ParseRender([], flags[1..], positional, options, args.WithFlag(flags[0]));
    } else {
      assert raw[1..] == positional;
    }
  }

  // ---- parsing, rendering and parsing again ----

  /** What every successful parse gives. */
  predicate IsParsed(args: Args, options: Options) {
    (forall name | name in args.values :: IsValueName(name, options)) &&
    (forall flag | flag in args.flags :: IsFlagName(flag, options))
  }

  lemma NameIsClean(arg: string)
    requires IsOption(arg)
    ensures "--" <= NameOf(arg) && '=' !in NameOf(arg)
    ensures InlineOf(arg).None? ==> NameOf(arg) == arg
  {
    if '=' in arg {
      assert arg[0] == arg[1] == '-';
      assert IndexOf(arg, '=') >= 2;
    }
  }

  lemma {:induction false} ParsedIsParsed(raw: seq<string>, options: Options, args: Args)
    requires IsParsed(args, options) && ParseFrom(raw, options, args).Ok?
    ensures IsParsed(ParseFrom(raw, options, args).value, options)
    decreases |raw|
  {
    if raw == [] || raw[0] == "--" {
    } else {
      if !IsOption(raw[0]) {
        ParsedIsParsed(raw[1..], options, args.WithPositional([raw[0]]));
      } else {
        var name, inline := NameOf(raw[0]), InlineOf(raw[0]);
        NameIsClean(raw[0]);
        hide NameOf, InlineOf;
        if name in options.valued {
          if inline.Some? {
            ParsedIsParsed(raw[1..], options, args.WithValue(name, inline.value));
          } else {
            ParsedIsParsed(raw[2..], options, args.WithValue(name, raw[1]));
          }
        } else {
          ParsedIsParsed(raw[1..], options, args.WithFlag(name));
        }
      }
    }
  }

  /** `values` and `flags` list a map and a set, in any order and with repetitions as long as the last value stands. */
  predicate Lists(values: seq<Pair>, flags: seq<string>, args: Args) {
    Added(EMPTY, values, flags) == args.(positional := [])
  }

  lemma {:induction false} AddedInTurn(args: Args, values: seq<Pair>, more: seq<Pair>)
    ensures Added(args, values + more, []) == Added(Added(args, values, []), more, [])
    decreases |values|
  {
    if values == [] {
      assert values + more == more;
    } else {
      assert (values + more)[1..] == values[1..] + more;
      AddedInTurn(args.WithValue(values[0].0, values[0].1), values[1..], more);
    }
  }

  lemma {:induction false} FlagsAdded(args: Args, values: seq<Pair>, flags: seq<string>)
    ensures Added(args, values, flags) == Added(args, values, []).(flags := args.flags + (set flag | flag in flags))
    decreases |values|, |flags|
  {
    if values == [] && flags == [] {
    } else if values != [] {
      FlagsAdded(args.WithValue(values[0].0, values[0].1), values[1..], flags);
    } else {
      FlagsAdded(args.WithFlag(flags[0]), [], flags[1..]);
      assert (set flag | flag in flags) == {flags[0]} + (set flag | flag in flags[1..]);
    }
  }

  lemma {:induction false} ValuesCanBeListed(values: map<string, string>) returns (pairs: seq<Pair>)
    ensures Added(EMPTY, pairs, []) == EMPTY.(values := values)
    ensures forall pair | pair in pairs :: pair.0 in values
    decreases |values|
  {
    if values == map[] {
      pairs := [];
    } else {
      var name :| name in values;
      var rest := values - {name};
      assert name !in rest.Keys && values.Keys == rest.Keys + {name};
      assert |rest.Keys| < |values.Keys|;
      var before := ValuesCanBeListed(rest);
      pairs := before + [(name, values[name])];
      AddedInTurn(EMPTY, before, [(name, values[name])]);
      assert values == rest[name := values[name]];
    }
  }

  lemma {:induction false} FlagsCanBeListed(flags: set<string>) returns (list: seq<string>)
    ensures flags == set flag | flag in list
    decreases |flags|
  {
    if flags == {} {
      list := [];
    } else {
      var flag :| flag in flags;
      list := FlagsCanBeListed(flags - {flag});
      assert flags == (flags - {flag}) + {flag};
      list := list + [flag];
    }
  }

  lemma {:induction false} NamesAreListed(args: Args, values: seq<Pair>, flags: seq<string>)
    ensures forall name | name in args.values :: name in Added(args, values, flags).values
    ensures args.flags <= Added(args, values, flags).flags
    ensures forall pair | pair in values :: pair.0 in Added(args, values, flags).values
    ensures forall flag | flag in flags :: flag in Added(args, values, flags).flags
    decreases |values|, |flags|
  {
    if values == [] && flags == [] {
    } else if values != [] {
      NamesAreListed(args.WithValue(values[0].0, values[0].1), values[1..], flags);
      assert forall pair | pair in values :: pair == values[0] || pair in values[1..];
    } else {
      NamesAreListed(args.WithFlag(flags[0]), [], flags[1..]);
      assert forall flag | flag in flags :: flag == flags[0] || flag in flags[1..];
    }
  }

  /** Every rendering of a parse result, whatever its order and repetitions, parses to that result again. */
  lemma ParseRenderParse(raw: seq<string>, options: Options, values: seq<Pair>, flags: seq<string>)
    requires ParseFrom(raw, options, EMPTY).Ok?
    requires Lists(values, flags, ParseFrom(raw, options, EMPTY).value)
    ensures var args := ParseFrom(raw, options, EMPTY).value;
            ParseFrom(Render(values, flags, args.positional), options, EMPTY) == Ok(args)
  {
    var args := ParseFrom(raw, options, EMPTY).value;
    ParsedIsParsed(raw, options, EMPTY);
    NamesAreListed(EMPTY, values, flags);
    hide ParseFrom, Render, Added, IsValueName, IsFlagName;
    assert forall pair | pair in values :: pair.0 in args.values;
    assert forall flag | flag in flags :: flag in args.flags;
    ParseRender(values, flags, args.positional, options, EMPTY);
    assert [] + args.positional == args.positional;
  }

  /** And there is always one. */
  lemma RenderingExists(raw: seq<string>, options: Options) returns (values: seq<Pair>, flags: seq<string>)
    requires ParseFrom(raw, options, EMPTY).Ok?
    ensures Lists(values, flags, ParseFrom(raw, options, EMPTY).value)
  {
    var args := ParseFrom(raw, options, EMPTY).value;
    values := ValuesCanBeListed(args.values);
    flags := FlagsCanBeListed(args.flags);
    hide ParseFrom, Added;
    FlagsAdded(EMPTY, values, flags);
  }

  // ---- two ways to give a value ----

  /** Some `--name value` pairs rewritten as `--name=value`; `chosen` is asked with the number of arguments left. */
  function Rewritten(raw: seq<string>, options: Options, chosen: nat -> bool): seq<string>
    decreases |raw|
  {
    if raw == [] || raw[0] == "--" then raw
    else if |raw| > 1 && IsOption(raw[0]) && '=' !in raw[0] && raw[0] in options.valued then
      (if chosen(|raw|) then [Inline(raw[0], raw[1])] else raw[..2]) + Rewritten(raw[2..], options, chosen)
    else [raw[0]] + Rewritten(raw[1..], options, chosen)
  }

  lemma BothFormsParse(name: string, value: string, rest: seq<string>, options: Options, args: Args)
    requires IsOption(name) && '=' !in name && name in options.valued
    ensures ParseFrom([name, value] + rest, options, args) == ParseFrom(rest, options, args.WithValue(name, value))
    ensures ParseFrom([Inline(name, value)] + rest, options, args)
         == ParseFrom(rest, options, args.WithValue(name, value))
  {
    InlineSplits(name, value);
    assert ([name, value] + rest)[2..] == rest && ([Inline(name, value)] + rest)[1..] == rest;
    assert NameOf(name) == name && InlineOf(name) == None;
    hide NameOf, InlineOf, Inline, IsOption;
  }

  /** Rewriting any of the pairs changes neither the result nor the error. */
  lemma {:induction false} RewritingChangesNothing(raw: seq<string>, options: Options, chosen: nat -> bool, args: Args)
    ensures ParseFrom(Rewritten(raw, options, chosen), options, args) == ParseFrom(raw, options, args)
    decreases |raw|
  {
    if raw == [] || raw[0] == "--" {
    } else if |raw| > 1 && IsOption(raw[0]) && '=' !in raw[0] && raw[0] in options.valued {
      var rest := Rewritten(raw[2..], options, chosen);
      RewritingChangesNothing(raw[2..], options, chosen, args.WithValue(raw[0], raw[1]));
      BothFormsParse(raw[0], raw[1], rest, options, args);
      BothFormsParse(raw[0], raw[1], raw[2..], options, args);
      assert raw == [raw[0], raw[1]] + raw[2..] && raw[..2] == [raw[0], raw[1]];
      hide ParseFrom, IsOption, Inline;
    } else {
      var rest := Rewritten(raw[1..], options, chosen);
      assert ([raw[0]] + rest)[1..] == rest;
      if !IsOption(raw[0]) {
        RewritingChangesNothing(raw[1..], options, chosen, args.WithPositional([raw[0]]));
      } else if NameOf(raw[0]) in options.valued && InlineOf(raw[0]).Some? {
        RewritingChangesNothing(raw[1..], options, chosen, args.WithValue(NameOf(raw[0]), InlineOf(raw[0]).value));
      } else {
        RewritingChangesNothing(raw[1..], options, chosen, args.WithFlag(NameOf(raw[0])));
      }
    }
  }
}
