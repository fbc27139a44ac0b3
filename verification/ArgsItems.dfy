/** What a command line means, wherever its options, flags and positional arguments stand. */
module ArgsItems {
  import opened Wrappers
  import opened Texts
  import opened ArgsParser

  datatype Item =
    | Separate(name: string, value: string)
    | Joined(name: string, value: string)
    | Flag(name: string)
    | Word(text: string)
  {
    function Written(): seq<string> {
      match this
      case Separate(name, value) => [name, value]
      case Joined(name, value) => [name + "=" + value]
      case Flag(name) => [name]
      case Word(text) => [text]
    }

    predicate GivesValue() { Separate? || Joined? }

    /** The value of a separate option is the next argument, whatever it is. */
    predicate Fits(options: Options) {
      match this
      case Separate(name, _) => "--" < name && '=' !in name && name in options.valued
      case Joined(name, _) => "--" <= name && '=' !in name && name in options.valued
      case Flag(name) => "--" < name && '=' !in name && name in options.flags && name !in options.valued
      case Word(text) => !("--" <= text)
    }
  }

  predicate AllFit(items: seq<Item>, options: Options) { forall item | item in items :: item.Fits(options) }

  function WrittenAll(items: seq<Item>): seq<string> {
    if items == [] then [] else items[0].Written() + WrittenAll(items[1..])
  }

  function Words(items: seq<Item>): seq<string> {
    if items == [] then [] else (if items[0].Word? then [items[0].text] else []) + Words(items[1..])
  }

  /** The last item that gives this option a value. */
  predicate IsLastValue(items: seq<Item>, i: nat) {
    i < |items| && items[i].GivesValue()
    && forall j | i < j < |items| && items[j].GivesValue() :: items[j].name != items[i].name
  }

  predicate HasValue(items: seq<Item>, name: string) {
    exists i :: 0 <= i < |items| && items[i].GivesValue() && items[i].name == name
  }

  predicate HasFlag(items: seq<Item>, name: string) {
    exists i :: 0 <= i < |items| && items[i].Flag? && items[i].name == name
  }

  /** The words in order and then the tail; the flags that occur; and for each option the last of its values. */
  ghost predicate Means(args: Args, items: seq<Item>, tail: seq<string>) {
    && args.positional == Words(items) + tail
    && (forall name :: name in args.flags <==> HasFlag(items, name))
    && (forall name :: name in args.values <==> HasValue(items, name))
    && forall i: nat | IsLastValue(items, i) && items[i].name in args.values ::
         args.values[items[i].name] == items[i].value
  }

  function With(args: Args, item: Item): Args {
    match item
    case Separate(name, value) => args.WithValue(name, value)
    case Joined(name, value) => args.WithValue(name, value)
    case Flag(name) => args.WithFlag(name)
    case Word(text) => args.WithPositional([text])
  }

  lemma {:induction false} WordsMore(items: seq<Item>, item: Item)
    ensures Words(items + [item]) == Words(items) + if item.Word? then [item.text] else []
    decreases |items|
  {
    if items == [] {
      assert items + [item] == [item] && [item][1..] == [];
    } else {
      WordsMore(items[1..], item);
      assert (items + [item])[0] == items[0] && (items + [item])[1..] == items[1..] + [item];
    }
  }

  lemma NamesMore(items: seq<Item>, item: Item, name: string)
    ensures HasFlag(items + [item], name) <==> HasFlag(items, name) || (item.Flag? && item.name == name)
    ensures HasValue(items + [item], name) <==> HasValue(items, name) || (item.GivesValue() && item.name == name)
  {
    var more := items + [item];
    assert more[|items|] == item && forall i | 0 <= i < |items| :: more[i] == items[i];
  }

  lemma LastMore(items: seq<Item>, item: Item, i: nat)
    requires IsLastValue(items + [item], i)
    ensures i == |items| || (IsLastValue(items, i) && (item.GivesValue() ==> item.name != items[i].name))
  {
    var more := items + [item];
    assert more[|items|] == item && forall j | 0 <= j < |items| :: more[j] == items[j];
  }

  lemma MeansMore(args: Args, items: seq<Item>, item: Item)
    requires Means(args, items, [])
    ensures Means(With(args, item), items + [item], [])
  {
    hide HasFlag, HasValue, Words;
    var more, now := items + [item], With(args, item);
    WordsMore(items, item);
    forall name ensures name in now.flags <==> HasFlag(more, name)
      ensures name in now.values <==> HasValue(more, name) {
      NamesMore(items, item, name);
    }
    forall i: nat | IsLastValue(more, i) && more[i].name in now.values ensures now.values[more[i].name] == more[i].value {
      LastMore(items, item, i);
      if i < |items| {
        assert more[i] == items[i];
      }
    }
  }

  /** One item at the front of a command line does what it says. */
  lemma ItemIsRead(item: Item, rest: seq<string>, options: Options, args: Args)
    requires item.Fits(options)
    ensures ParseFrom(item.Written() + rest, options, args) == ParseFrom(rest, options, With(args, item))
  {
    match item {
      case Separate(name, value) =>
        BothFormsParse(name, value, rest, options, args);
      case Joined(name, value) =>
        InlineSplits(name, value);
        assert ([Inline(name, value)] + rest)[1..] == rest;
      case Flag(name) =>
        assert ([name] + rest)[1..] == rest && NameOf(name) == name && InlineOf(name) == None;
      case Word(text) =>
        assert ([text] + rest)[1..] == rest && text != "--";
    }
  }

  lemma {:induction false} ItemsAreRead(
    before: seq<Item>, items: seq<Item>, rest: seq<string>, options: Options, args: Args) returns (after: Args)
    requires AllFit(items, options) && Means(args, before, [])
    ensures ParseFrom(WrittenAll(items) + rest, options, args) == ParseFrom(rest, options, after)
    ensures Means(after, before + items, [])
    decreases |items|
  {
    hide ParseFrom, Means;
    if items == [] {
      after := args;
      assert WrittenAll(items) + rest == rest && before + items == before;
    } else {
      var first, later := items[0], items[1..];
      assert first in items && forall item | item in later :: item in items;
      assert WrittenAll(items) + rest == first.Written() + (WrittenAll(later) + rest);
      hide Item.Fits, Item.Written;
      ItemIsRead(first, WrittenAll(later) + rest, options, args);
      MeansMore(args, before, first);
      after := ItemsAreRead(before + [first], later, rest, options, With(args, first));
      assert before + [first] + later == before + items;
    }
  }

  /** `raw` consists of these items, and of the tail behind `--` when there is one. */
  predicate Reads(raw: seq<string>, items: seq<Item>, tail: Option<seq<string>>, options: Options) {
    AllFit(items, options) && raw == WrittenAll(items) + if tail.Some? then ["--"] + tail.value else []
  }

  /** An option that the subcommand does not know, or a flag that is given a value. */
  predicate IsUnknown(arg: string, options: Options) {
    "--" < arg &&
    if '=' in arg then arg[..IndexOf(arg, '=')] !in options.valued
    else arg !in options.valued && arg !in options.flags
  }

  predicate LacksValue(rest: seq<string>, options: Options) {
    |rest| == 1 && "--" < rest[0] && '=' !in rest[0] && rest[0] in options.valued
  }

  /** `rest` begins with an argument that is refused with this error. */
  predicate Refuses(rest: seq<string>, options: Options, error: string) {
    rest != [] &&
    (if LacksValue(rest, options) then error == rest[0] + " needs a value"
     else IsUnknown(rest[0], options) && error == "unknown option " + rest[0] + "; see jobctl --help")
  }

  lemma EmptyMeansNothing()
    ensures Means(EMPTY, [], [])
  {
  }

  /** Any mixture of options in both forms, flags and words, with or without a tail, is read as what it says. */
  lemma MixtureIsRead(raw: seq<string>, items: seq<Item>, tail: Option<seq<string>>, options: Options)
    requires Reads(raw, items, tail, options)
    ensures ParseFrom(raw, options, EMPTY).Ok? && Means(ParseFrom(raw, options, EMPTY).value, items, tail.GetOr([]))
  {
    EmptyMeansNothing();
    var rest := if tail.Some? then ["--"] + tail.value else [];
    var after := ItemsAreRead([], items, rest, options, EMPTY);
    assert [] + items == items && (tail.Some? ==> rest[1..] == tail.value);
    assert Words(items) + [] == Words(items);
    hide HasFlag, HasValue, IsLastValue, Words, WrittenAll;
  }

  lemma RefusalIsRead(items: seq<Item>, rest: seq<string>, options: Options, error: string)
    requires AllFit(items, options) && Refuses(rest, options, error)
    ensures ParseFrom(WrittenAll(items) + rest, options, EMPTY) == Err(error)
  {
    EmptyMeansNothing();
    var after := ItemsAreRead([], items, rest, options, EMPTY);
    hide Means, WrittenAll;
  }

  /** Every command line is such a mixture up to its end, to `--`, or to the first argument that is refused. */
  lemma {:induction false} EveryLineSplits(raw: seq<string>, options: Options)
    returns (items: seq<Item>, rest: seq<string>, error: string)
    ensures AllFit(items, options) && raw == WrittenAll(items) + rest
    ensures rest == [] || rest[0] == "--" || Refuses(rest, options, error)
    decreases |raw|
  {
    if raw == [] || raw[0] == "--" || Stuck(raw, options) {
      items, rest := [], raw;
      error := if raw == [] then "" else if LacksValue(raw, options) then raw[0] + " needs a value"
      else "unknown option " + raw[0] + "; see jobctl --help";
    } else {
      var item, later := FirstItem(raw, options);
      items, rest, error := EveryLineSplits(later, options);
      assert WrittenAll([item] + items) == item.Written() + WrittenAll(items) by {
        assert ([item] + items)[1..] == items;
      }
      items := [item] + items;
    }
    hide Refuses, Item.Fits, Item.Written;
  }

  predicate Stuck(raw: seq<string>, options: Options) {
    raw != [] && (LacksValue(raw, options) || IsUnknown(raw[0], options))
  }

  lemma FirstItem(raw: seq<string>, options: Options) returns (item: Item, later: seq<string>)
    requires raw != [] && raw[0] != "--" && !Stuck(raw, options)
    ensures item.Fits(options) && raw == item.Written() + later && |later| < |raw|
  {
    var arg := raw[0];
    if !("--" <= arg) {
      item, later := Word(arg), raw[1..];
    } else if '=' in arg {
      var k := IndexOf(arg, '=');
      item, later := Joined(arg[..k], arg[k + 1..]), raw[1..];
      NameIsClean(arg);
      assert arg == arg[..k] + "=" + arg[k + 1..];
    } else if arg in options.valued {
      item, later := Separate(arg, raw[1]), raw[2..];
    } else {
      item, later := Flag(arg), raw[1..];
    }
  }

  lemma MeaningIsUnique(args: Args, other: Args, items: seq<Item>, tail: seq<string>)
    requires Means(args, items, tail) && Means(other, items, tail)
    ensures args == other
  {
    forall name | name in args.values ensures args.values[name] == other.values[name] {
      var i :| 0 <= i < |items| && items[i].GivesValue() && items[i].name == name;
      var j := LastOf(items, name, i);
    }
    assert args.values.Keys == other.values.Keys;
    assert args.values == other.values && args.flags == other.flags;
  }

  lemma {:induction false} LastOf(items: seq<Item>, name: string, i: nat) returns (j: nat)
    requires i < |items| && items[i].GivesValue() && items[i].name == name
    ensures IsLastValue(items, j) && items[j].name == name
    decreases |items| - i
  {
    if k :| i < k < |items| && items[k].GivesValue() && items[k].name == name {
      j := LastOf(items, name, k);
    } else {
      j := i;
    }
  }

  /** The result is what the items and the tail say, exactly for the lines that consist of items and a tail. */
  lemma ParsedIff(raw: seq<string>, options: Options, args: Args)
    ensures ParseFrom(raw, options, EMPTY) == Ok(args) <==>
            exists items, tail :: Reads(raw, items, tail, options) && Means(args, items, tail.GetOr([]))
  {
    hide ParseFrom, Means, WrittenAll, Item.Fits;
    if ParseFrom(raw, options, EMPTY) == Ok(args) {
      var items, rest, error := EveryLineSplits(raw, options);
      if rest != [] && rest[0] != "--" {
        RefusalIsRead(items, rest, options, error);
      } else {
        var tail := if rest == [] then None else Some(rest[1..]);
        assert Reads(raw, items, tail, options);
        MixtureIsRead(raw, items, tail, options);
      }
    }
    if items, tail :| Reads(raw, items, tail, options) && Means(args, items, tail.GetOr([])) {
      MixtureIsRead(raw, items, tail, options);
      MeaningIsUnique(args, ParseFrom(raw, options, EMPTY).value, items, tail.GetOr([]));
    }
  }

  /** And it is an error exactly when items are followed by an argument that is refused with it: the first such one. */
  lemma RefusedIff(raw: seq<string>, options: Options, error: string)
    ensures ParseFrom(raw, options, EMPTY) == Err(error) <==>
            exists items, rest ::
              AllFit(items, options) && raw == WrittenAll(items) + rest && Refuses(rest, options, error)
  {
    hide ParseFrom, Means, WrittenAll, Refuses, Item.Fits;
    if ParseFrom(raw, options, EMPTY) == Err(error) {
      var items, rest, other := EveryLineSplits(raw, options);
      if rest == [] || rest[0] == "--" {
        var tail := if rest == [] then None else Some(rest[1..]);
        assert Reads(raw, items, tail, options);
        MixtureIsRead(raw, items, tail, options);
      } else {
        RefusalIsRead(items, rest, options, other);
      }
    }
    if items, rest :| AllFit(items, options) && raw == WrittenAll(items) + rest && Refuses(rest, options, error) {
      RefusalIsRead(items, rest, options, error);
    }
  }
}
