/** Node options: the decoded YAML option tree and its accessors (src/options.rs). */
module Options {

  import opened Util

  /** A YAML node as the parser delivers it. Numbers are kept as reals (every YAML number
      converts to a 64-bit float); mapping keys may be any node. */
  datatype Yaml =
    | YNull
    | YBool(flag: bool)
    | YNumber(number: real)
    | YString(text: string)
    | YSequence(items: seq<Yaml>)
    | YMapping(entries: seq<(Yaml, Yaml)>)
    | YTagged(tag: string, tagged: Yaml)

  /** A decoded option value. */
  datatype Value =
    | Bool(flag: bool)
    | Number(number: real)
    | String(text: string)
    | Sequence(items: seq<Value>)
    | Mapping(entries: map<string, Value>)

  /** The options of one node, by name. */
  type Options = map<string, Value>

  /** Decodes one YAML node: null and tagged nodes are rejected, and a collection decodes iff
      each of its parts does. */
  function FromYamlValue(y: Yaml): (r: Result<Value>)
    ensures r.Err? ==> r.error == InvalidOptions
    ensures y.YNull? || y.YTagged? ==> r.Err?
    ensures y.YBool? ==> r == Ok(Bool(y.flag))
    ensures y.YNumber? ==> r == Ok(Number(y.number))
    ensures y.YString? ==> r == Ok(String(y.text))
    ensures r.Ok? && y.YSequence? ==> r.value.Sequence?
    ensures r.Ok? && y.YMapping? ==> r.value.Mapping?
    decreases y
  {
    match y
    case YNull => Err(InvalidOptions)
    case YBool(b) => Ok(Bool(b))
    case YNumber(x) => Ok(Number(x))
    case YString(s) => Ok(String(s))
    case YSequence(items) =>
      var values :- FromYamlSeq(items);
      Ok(Sequence(values))
    case YMapping(entries) =>
      var m :- FromYamlEntries(y, entries);
      Ok(Mapping(m))
    case YTagged(_, _) => Err(InvalidOptions)
  }

  /** Decodes the elements of a sequence in order, stopping at the first that fails. */
  function FromYamlSeq(items: seq<Yaml>): (r: Result<seq<Value>>)
    ensures r.Err? ==> r.error == InvalidOptions
    ensures r.Ok? <==> forall i | 0 <= i < |items| :: FromYamlValue(items[i]).Ok?
    ensures r.Ok? ==> |r.value| == |items|
    ensures r.Ok? ==> forall i | 0 <= i < |items| :: r.value[i] == FromYamlValue(items[i]).value
    decreases items
  {
    if items == [] then Ok([])
    else
      var head := FromYamlValue(items[0]);
      if head.Err? then Err(head.error)
      else
        var tail := FromYamlSeq(items[1..]);
        if tail.Err? then
          assert forall i | 1 <= i < |items| :: items[i] == items[1..][i - 1];
          Err(tail.error)
        else
          assert forall i | 1 <= i < |items| :: items[i] == items[1..][i - 1];
          Ok([head.value] + tail.value)
  }

  /** The key strings of the entries whose key is a string. */
  function KeyStrings(entries: seq<(Yaml, Yaml)>): set<string>
  {
    set i | 0 <= i < |entries| && entries[i].0.YString? :: entries[i].0.text
  }

  /** No later entry has the same key as entry `i`. */
  predicate LastOccurrence(entries: seq<(Yaml, Yaml)>, i: nat)
    requires i < |entries|
  {
    forall j | i < j < |entries| :: entries[j].0 != entries[i].0
  }

  /** Decodes mapping entries: every key must be a string and every value must decode; when a key
      repeats, the later entry wins, as in collecting into a hash map. `parent` is the mapping
      node the entries come from, which bounds the recursion. */
  function FromYamlEntries(ghost parent: Yaml, entries: seq<(Yaml, Yaml)>): (r: Result<map<string, Value>>)
    requires parent.YMapping? && forall i | 0 <= i < |entries| :: entries[i] in parent.entries
    ensures r.Err? ==> r.error == InvalidOptions
    ensures r.Ok? <==> forall i | 0 <= i < |entries| ::
                         entries[i].0.YString? && FromYamlValue(entries[i].1).Ok?
    decreases parent, |entries|
  {
    if entries == [] then Ok(map[])
    else
      assert entries[0] in parent.entries;
      var (key, value) := entries[0];
      var rest := entries[1..];
      assert forall i | 1 <= i < |entries| :: entries[i] == rest[i - 1];
      if !key.YString? then Err(InvalidOptions)
      else
        var v := FromYamlValue(value);
        if v.Err? then Err(v.error)
        else
          var tail := FromYamlEntries(parent, rest);
          if tail.Err? then Err(tail.error)
          else
            Ok(map[key.text := v.value] + tail.value)
  }

  /** A decoded mapping has exactly the entries' keys, and each key maps to the value of its
      last entry. */
  lemma {:induction false} FromYamlEntriesMap(parent: Yaml, entries: seq<(Yaml, Yaml)>)
    requires parent.YMapping? && forall i | 0 <= i < |entries| :: entries[i] in parent.entries
    ensures var r := FromYamlEntries(parent, entries);
            r.Ok? ==> r.value.Keys == KeyStrings(entries)
    ensures var r := FromYamlEntries(parent, entries);
            r.Ok? ==> forall i | 0 <= i < |entries| && LastOccurrence(entries, i) ::
                        r.value[entries[i].0.text] == FromYamlValue(entries[i].1).value
    decreases |entries|
  {
    var r := FromYamlEntries(parent, entries);
    if entries != [] && r.Ok? {
      var rest := entries[1..];
      assert forall i | 1 <= i < |entries| :: entries[i] == rest[i - 1];
      FromYamlEntriesMap(parent, rest);
      var tail := FromYamlEntries(parent, rest);
      KeyStringsCons(entries);
      var vals := seq(|entries|, i requires 0 <= i < |entries| => FromYamlValue(entries[i].1).value);
      LastEntryWins(entries, vals, tail.value, r.value);
    }
  }

  /** The string keys of a nonempty entry list are those of its tail and its own, if a string. */
  lemma KeyStringsCons(entries: seq<(Yaml, Yaml)>)
    requires entries != [] && entries[0].0.YString?
    ensures KeyStrings(entries) == {entries[0].0.text} + KeyStrings(entries[1..])
  {
    var rest := entries[1..];
    forall k | k in KeyStrings(entries) ensures k in {entries[0].0.text} + KeyStrings(rest) {
      var i :| 0 <= i < |entries| && entries[i].0.YString? && entries[i].0.text == k;
      if i > 0 {
        assert rest[i - 1].0.text == k;
      }
    }
    forall k | k in KeyStrings(rest) ensures k in KeyStrings(entries) {
      var i :| 0 <= i < |rest| && rest[i].0.YString? && rest[i].0.text == k;
      assert entries[i + 1].0.text == k;
    }
  }

  /** Putting the tail's map over the first entry keeps, for every entry no later entry
      overrides, that entry's value; `vals[i]` is the value entry `i` decodes to. */
  lemma LastEntryWins(entries: seq<(Yaml, Yaml)>, vals: seq<Value>, tail: map<string, Value>,
                      m: map<string, Value>)
    requires entries != [] && |vals| == |entries|
    requires forall i | 0 <= i < |entries| :: entries[i].0.YString?
    requires tail.Keys == KeyStrings(entries[1..])
    requires forall i | 1 <= i < |entries| && LastOccurrence(entries[1..], i - 1) ::
               tail[entries[i].0.text] == vals[i]
    requires m == map[entries[0].0.text := vals[0]] + tail
    ensures forall i | 0 <= i < |entries| && LastOccurrence(entries, i) :: m[entries[i].0.text] == vals[i]
  {
    var rest := entries[1..];
    LastOccurrenceTail(entries);
    forall i | 0 <= i < |entries| && LastOccurrence(entries, i) ensures m[entries[i].0.text] == vals[i] {
      if i == 0 {
        forall j | 0 <= j < |rest| && rest[j].0.YString? ensures rest[j].0.text != entries[0].0.text {
          assert entries[j + 1].0 != entries[0].0;
        }
        assert entries[0].0.text !in tail;
      } else {
        assert rest[i - 1] == entries[i];
        assert entries[i].0.text in KeyStrings(rest);
      }
    }
  }

  /** An entry after the first that no later entry overrides is not overridden within the tail. */
  lemma LastOccurrenceTail(entries: seq<(Yaml, Yaml)>)
    requires entries != []
    ensures forall i | 0 < i < |entries| && LastOccurrence(entries, i) :: LastOccurrence(entries[1..], i - 1)
  {
    var rest := entries[1..];
    forall i | 0 < i < |entries| && LastOccurrence(entries, i) ensures LastOccurrence(rest, i - 1) {
      forall j | i - 1 < j < |rest| ensures rest[j].0 != rest[i - 1].0 {
        assert entries[j + 1].0 != entries[i].0;
      }
    }
  }

  /** `from_yaml`: the top-level option block decodes like a nested mapping. */
  function FromYaml(options: seq<(Yaml, Yaml)>): (r: Result<Options>)
    ensures r.Err? ==> r.error == InvalidOptions
    ensures r.Ok? <==> (forall i | 0 <= i < |options| :: options[i].0.YString?)
                       && (forall i | 0 <= i < |options| :: FromYamlValue(options[i].1).Ok?)
    ensures r.Ok? ==> r.value.Keys == KeyStrings(options)
  {
    FromYamlEntriesMap(YMapping(options), options);
    FromYamlEntries(YMapping(options), options)
  }

  /** A non-string key anywhere in a mapping makes it fail to decode. */
  lemma NonStringKeyRejected(entries: seq<(Yaml, Yaml)>, i: nat)
    requires i < |entries| && !entries[i].0.YString?
    ensures FromYamlValue(YMapping(entries)) == Err(InvalidOptions)
    ensures FromYaml(entries) == Err(InvalidOptions)
  {
  }

  function AsBool(v: Value): (r: Option<bool>)
    ensures r.Some? <==> v.Bool?
    ensures r.Some? ==> r.value == v.flag
  {
    match v
    case Bool(b) => Some(b)
    case _ => None
  }

  function AsF32(v: Value): (r: Option<real>)
    ensures r.Some? <==> v.Number?
    ensures r.Some? ==> r.value == v.number
  {
    match v
    case Number(x) => Some(x)
    case _ => None
  }

  const I32Min: int := -0x8000_0000
  const I32Max: int := 0x7fff_ffff

  /** A whole number converted with a saturating float-to-`i32` cast. */
  function AsI32(v: Value): (r: Option<int>)
    ensures r.Some? <==> v.Number? && v.number.Floor as real == v.number
    ensures r.Some? ==> I32Min <= r.value <= I32Max
    ensures r.Some? && I32Min as real <= v.number <= I32Max as real ==> r.value as real == v.number
    ensures r.Some? && v.number < I32Min as real ==> r.value == I32Min
    ensures r.Some? && v.number > I32Max as real ==> r.value == I32Max
  {
    match v
    case Number(x) =>
      if x.Floor as real == x then
        Some(if x.Floor < I32Min then I32Min else if x.Floor > I32Max then I32Max else x.Floor)
      else None
    case _ => None
  }

  function AsStr(v: Value): (r: Option<string>)
    ensures r.Some? <==> v.String?
    ensures r.Some? ==> r.value == v.text
  {
    match v
    case String(s) => Some(s)
    case _ => None
  }

  /** A scalar as a one-element slice of itself, a sequence as its elements, and nothing for a
      mapping. */
  function AsSlice(v: Value): (r: Option<seq<Value>>)
    ensures r.None? <==> v.Mapping?
    ensures v.Sequence? ==> r == Some(v.items)
    ensures v.Bool? || v.Number? || v.String? ==> r == Some([v])
  {
    match v
    case Sequence(items) => Some(items)
    case Mapping(_) => None
    case _ => Some([v])
  }

  /** The numbers of a list of values, failing at the first value that is not a number. */
  function NumbersOf(vs: seq<Value>): (r: Result<seq<real>>)
    ensures r.Err? ==> r.error == InvalidOptions
    ensures r.Ok? <==> forall i | 0 <= i < |vs| :: vs[i].Number?
    ensures r.Ok? ==> |r.value| == |vs| && forall i | 0 <= i < |vs| :: r.value[i] == vs[i].number
  {
    if vs == [] then Ok([])
    else
      var head :- match AsF32(vs[0]) case Some(x) => Ok(x) case None => Err(InvalidOptions);
      var tail :- NumbersOf(vs[1..]);
      assert forall i | 1 <= i < |vs| :: vs[i] == vs[1..][i - 1];
      Ok([head] + tail)
  }

  /** A value read as a list of numbers: a single number is a list of one, a sequence must hold
      numbers only, and anything else is invalid. */
  function AsNumbers(v: Value): (r: Result<seq<real>>)
    ensures r.Err? ==> r.error == InvalidOptions
    ensures v.Number? ==> r == Ok([v.number])
    ensures v.Sequence? ==> r == NumbersOf(v.items)
    ensures v.Bool? || v.String? || v.Mapping? ==> r.Err?
  {
    var items :- match AsSlice(v) case Some(items) => Ok(items) case None => Err(InvalidOptions);
    assert v.Number? ==> items == [v] && NumbersOf(items).value == [v.number];
    NumbersOf(items)
  }

  /** A key of a mapping; nothing for any other value. */
  function Get(v: Value, key: string): (r: Option<Value>)
    ensures r.Some? <==> v.Mapping? && key in v.entries
    ensures r.Some? ==> r.value == v.entries[key]
  {
    match v
    case Mapping(m) => if key in m then Some(m[key]) else None
    case _ => None
  }

  /** An option of a node, if given. */
  function Lookup(options: Options, key: string): (r: Option<Value>)
    ensures r.Some? <==> key in options
    ensures r.Some? ==> r.value == options[key]
  {
    if key in options then Some(options[key]) else None
  }

  /** Looking up a key of a decoded option block finds what the key's last entry decodes to, and
      the scalar accessors read back the YAML scalar it came from. */
  lemma DecodedLookup(options: seq<(Yaml, Yaml)>, i: nat)
    requires FromYaml(options).Ok? && i < |options| && LastOccurrence(options, i)
    ensures options[i].0.YString?
    ensures var r := Lookup(FromYaml(options).value, options[i].0.text);
            r == Some(FromYamlValue(options[i].1).value)
            && (options[i].1.YBool? ==> AsBool(r.value) == Some(options[i].1.flag))
            && (options[i].1.YNumber? ==> AsF32(r.value) == Some(options[i].1.number))
            && (options[i].1.YString? ==> AsStr(r.value) == Some(options[i].1.text))
  {
    FromYamlEntriesMap(YMapping(options), options);
  }

  /** `get` on a decoded nested mapping finds what the key's last entry decodes to. */
  lemma DecodedGet(entries: seq<(Yaml, Yaml)>, i: nat)
    requires FromYamlValue(YMapping(entries)).Ok? && i < |entries| && LastOccurrence(entries, i)
    ensures entries[i].0.YString?
    ensures Get(FromYamlValue(YMapping(entries)).value, entries[i].0.text)
            == Some(FromYamlValue(entries[i].1).value)
  {
    FromYamlEntriesMap(YMapping(entries), entries);
  }

  /** A pair of convertible values becomes a two-element sequence, in order. */
  function FromPair(first: Value, second: Value): (r: Value)
    ensures AsSlice(r) == Some([first, second])
    ensures r.Sequence? && |r.items| == 2 && r.items[0] == first && r.items[1] == second
  {
    Sequence([first, second])
  }

  /** `i32` and `f32` both convert to numbers. */
  function FromNumber(x: real): (r: Value)
    ensures AsF32(r) == Some(x)
  {
    Number(x)
  }

  /** A number given as a pair of numbers reads back as both numbers through `AsSlice`. */
  lemma PairOfNumbers(a: real, b: real)
    ensures var s := AsSlice(FromPair(FromNumber(a), FromNumber(b)));
            s.Some? && |s.value| == 2 && AsF32(s.value[0]) == Some(a) && AsF32(s.value[1]) == Some(b)
  {
  }
}
