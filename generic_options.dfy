/** Flag builders of src/generic-options.js.

    Each JavaScript builder is a closure `builder(name, flagPrefix = '--')(value)`
    that turns one option value into the command-line arguments handed to the
    docker client. Here the two applications are merged into one function whose
    last parameter keeps the JavaScript default. A JavaScript object given to
    `mapOption` is the sequence of its entries in `Object.keys` order. */
module GenericOptions {
  import opened Optional

  const DefaultFlagPrefix: string := "--"

  /** The flag every builder emits: the prefix followed by the option name. */
  function Flag(name: string, flagPrefix: string): (flag: string)
    ensures |flag| == |flagPrefix| + |name|
    ensures flag[..|flagPrefix|] == flagPrefix && flag[|flagPrefix|..] == name
  {
    flagPrefix + name
  }

  /** `simpleOption(name, flagPrefix)(value)`. */
  function SimpleOption(name: string, value: string, flagPrefix: string := DefaultFlagPrefix): seq<string>
  {
    [Flag(name, flagPrefix), value]
  }

  /** `booleanOption(name, flagPrefix)(value)`: the bare flag when set, nothing otherwise. */
  function BooleanOption(name: string, value: bool, flagPrefix: string := DefaultFlagPrefix): seq<string>
  {
    if value then [Flag(name, flagPrefix)] else []
  }

  /** `listOption(name, flagPrefix)(list)`: the left fold
      `list.reduce((acc, item) => acc.concat(flag, item), [])`. */
  function ListOption(name: string, list: seq<string>, flagPrefix: string := DefaultFlagPrefix): (args: seq<string>)
    ensures |args| == 2 * |list|
  {
    if list == [] then []
    else ListOption(name, list[..|list| - 1], flagPrefix) + [Flag(name, flagPrefix), list[|list| - 1]]
  }

  /** The `key=value` text `mapOption` emits for one entry. */
  function Assignment(entry: (string, string)): string
  {
    entry.0 + "=" + entry.1
  }

  /** `mapOption(name, flagPrefix)(map)`: the left fold over `Object.keys(map)`
      `keys.reduce((acc, key) => acc.concat(flag, key + '=' + map[key]), [])`. */
  function MapOption(name: string, entries: seq<(string, string)>, flagPrefix: string := DefaultFlagPrefix): (args: seq<string>)
    ensures |args| == 2 * |entries|
  {
    if entries == [] then []
    else MapOption(name, entries[..|entries| - 1], flagPrefix) + [Flag(name, flagPrefix), Assignment(entries[|entries| - 1])]
  }

  // ---------------------------------------------------------------------------
  // Partners: reading an argument list back the way a command-line parser would
  // ---------------------------------------------------------------------------

  /** The values of an argument list made only of `flag value` pairs, in order;
      None when the list has any other shape. */
  function Unflag(flag: string, args: seq<string>): (values: Option<seq<string>>)
    ensures values.Some? ==> |args| == 2 * |values.value|
    decreases |args|
  {
    if args == [] then Some([])
    else if |args| >= 2 && args[0] == flag then
      match Unflag(flag, args[2..])
      case None => None
      case Some(rest) => Some([args[1]] + rest)
    else None
  }

  /** Whether a flag was given at all. */
  predicate IsSet(flag: string, args: seq<string>)
  {
    flag in args
  }

  /** Splits `key=value` at its first `=`; the whole text is the key when there is none. */
  function SplitAssignment(text: string): (entry: (string, string))
    ensures '=' !in entry.0
    decreases |text|
  {
    if text == [] then ("", "")
    else if text[0] == '=' then ("", text[1..])
    else
      var rest := SplitAssignment(text[1..]);
      ([text[0]] + rest.0, rest.1)
  }

  /** The entries an argument list of `flag key=value` pairs designates. */
  function Unassign(assignments: seq<string>): (entries: seq<(string, string)>)
    ensures |entries| == |assignments|
    ensures forall k :: 0 <= k < |entries| ==> entries[k] == SplitAssignment(assignments[k])
  {
    if assignments == [] then [] else [SplitAssignment(assignments[0])] + Unassign(assignments[1..])
  }

  // ---------------------------------------------------------------------------
  // Properties
  // ---------------------------------------------------------------------------

  /** The simple builder is the flag followed by the value, and reads back as that one value. */
  lemma SimpleOptionRoundTrip(name: string, value: string, flagPrefix: string)
    ensures SimpleOption(name, value, flagPrefix) == [flagPrefix + name, value]
    ensures SimpleOption(name, value) == ["--" + name, value]
    ensures Unflag(flagPrefix + name, SimpleOption(name, value, flagPrefix)) == Some([value])
  {
    var args := SimpleOption(name, value, flagPrefix);
    assert args[2..] == [];
    assert Unflag(flagPrefix + name, args[2..]) == Some([]);
    assert [args[1]] + [] == [value];
  }

  /** The boolean builder emits the flag exactly when the value is true, and then only the flag. */
  lemma BooleanOptionSetIff(name: string, value: bool, flagPrefix: string)
    ensures IsSet(flagPrefix + name, BooleanOption(name, value, flagPrefix)) <==> value
    ensures BooleanOption(name, value, flagPrefix) == (if value then [flagPrefix + name] else [])
    ensures BooleanOption(name, value) == (if value then ["--" + name] else [])
  {
  }

  /** Shape of the list builder: twice as long as the list, the flag at every even
      index and the items, in their original order, at the odd indices. */
  lemma {:induction false} ListOptionShape(name: string, list: seq<string>, flagPrefix: string)
    ensures |ListOption(name, list, flagPrefix)| == 2 * |list|
    ensures forall k :: 0 <= k < |ListOption(name, list, flagPrefix)| ==>
              ListOption(name, list, flagPrefix)[k] == if k % 2 == 0 then flagPrefix + name else list[k / 2]
  {
    if list != [] {
      var init := list[..|list| - 1];
      ListOptionShape(name, init, flagPrefix);
      assert init + [list[|list| - 1]] == list;
    }
  }

  /** Building from the concatenation of two lists concatenates the two argument lists. */
  lemma {:induction false} ListOptionAppend(name: string, a: seq<string>, b: seq<string>, flagPrefix: string)
    ensures ListOption(name, a + b, flagPrefix) == ListOption(name, a, flagPrefix) + ListOption(name, b, flagPrefix)
    decreases |b|
  {
    if b == [] {
      assert a + b == a;
    } else {
      var init := b[..|b| - 1];
      assert (a + b)[..|a + b| - 1] == a + init;
      ListOptionAppend(name, a, init, flagPrefix);
    }
  }

  /** Reading the list builder's output back yields the original list: nothing is
      lost, reordered or duplicated. */
  lemma {:induction false} ListOptionRoundTrip(name: string, list: seq<string>, flagPrefix: string)
    ensures Unflag(flagPrefix + name, ListOption(name, list, flagPrefix)) == Some(list)
    decreases |list|
  {
    if list != [] {
      var flag := flagPrefix + name;
      var tail := list[1..];
      ListOptionAppend(name, [list[0]], tail, flagPrefix);
      assert [list[0]] + tail == list;
      assert ListOption(name, [list[0]], flagPrefix) == [flag, list[0]] by {
        assert [list[0]][..0] == [];
      }
      ListOptionRoundTrip(name, tail, flagPrefix);
      assert ListOption(name, list, flagPrefix)[2..] == ListOption(name, tail, flagPrefix);
    }
  }

  /** An empty list and an empty map emit no arguments at all. */
  lemma EmptyCollectionsEmitNothing(name: string, flagPrefix: string)
    ensures ListOption(name, [], flagPrefix) == []
    ensures MapOption(name, [], flagPrefix) == []
  {
  }

  /** The map builder is the list builder applied to the entries' `key=value` texts. */
  lemma {:induction false} MapOptionIsListOfAssignments(name: string, entries: seq<(string, string)>, flagPrefix: string)
    ensures MapOption(name, entries, flagPrefix) == ListOption(name, seq(|entries|, k requires 0 <= k < |entries| => Assignment(entries[k])), flagPrefix)
    decreases |entries|
  {
    var texts := seq(|entries|, k requires 0 <= k < |entries| => Assignment(entries[k]));
    if entries != [] {
      var init := entries[..|entries| - 1];
      MapOptionIsListOfAssignments(name, init, flagPrefix);
      assert texts[..|texts| - 1] == seq(|init|, k requires 0 <= k < |init| => Assignment(init[k]));
    }
  }

  /** Shape of the map builder: `flag, key=value` for each entry in key order, so
      twice as many arguments as keys. */
  lemma MapOptionShape(name: string, entries: seq<(string, string)>, flagPrefix: string)
    ensures |MapOption(name, entries, flagPrefix)| == 2 * |entries|
    ensures forall k :: 0 <= k < |MapOption(name, entries, flagPrefix)| ==>
              MapOption(name, entries, flagPrefix)[k] ==
                if k % 2 == 0 then flagPrefix + name else entries[k / 2].0 + "=" + entries[k / 2].1
  {
    MapOptionIsListOfAssignments(name, entries, flagPrefix);
    ListOptionShape(name, seq(|entries|, k requires 0 <= k < |entries| => Assignment(entries[k])), flagPrefix);
  }

  /** Splitting an assignment whose key has no `=` gives back key and value. */
  lemma {:induction false} SplitAssignmentInverse(entry: (string, string))
    requires '=' !in entry.0
    ensures SplitAssignment(Assignment(entry)) == entry
    decreases |entry.0|
  {
    if entry.0 != [] {
      var rest := (entry.0[1..], entry.1);
      SplitAssignmentInverse(rest);
      assert Assignment(entry)[1..] == Assignment(rest);
      assert [entry.0[0]] + rest.0 == entry.0;
    }
  }

  /** Reading the map builder's output back yields the original entries in key
      order, as long as no key contains `=` (the value may). */
  lemma MapOptionRoundTrip(name: string, entries: seq<(string, string)>, flagPrefix: string)
    requires forall k :: 0 <= k < |entries| ==> '=' !in entries[k].0
    ensures Unflag(flagPrefix + name, MapOption(name, entries, flagPrefix)).Some?
    ensures Unassign(Unflag(flagPrefix + name, MapOption(name, entries, flagPrefix)).value) == entries
  {
    var texts := seq(|entries|, k requires 0 <= k < |entries| => Assignment(entries[k]));
    MapOptionIsListOfAssignments(name, entries, flagPrefix);
    ListOptionRoundTrip(name, texts, flagPrefix);
    forall k | 0 <= k < |entries|
      ensures SplitAssignment(texts[k]) == entries[k]
    {
      SplitAssignmentInverse(entries[k]);
    }
  }
}
