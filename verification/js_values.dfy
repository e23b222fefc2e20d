/**
 * JSON-like JavaScript values as the handlers see them after `request.json()`,
 * with the three JavaScript notions the application uses on them: truthiness,
 * property lookup, and the object spread `{ ...obj, key: value }`.
 * Numbers are integers here; floating point and NaN are not modelled.
 */
module JsValues {
  import opened Wrappers
  import opened Strings

  /**
   * An object is its own properties in insertion order. JavaScript lists
   * integer-like names first, in ascending order; that reordering is not modelled.
   */
  datatype JsValue =
    | Undefined
    | Null
    | Bool(b: bool)
    | Num(n: int)
    | Str(s: string)
    | Arr(items: seq<JsValue>)
    | Obj(props: seq<(string, JsValue)>)

  /** JavaScript truthiness: only `undefined`, `null`, `false`, `0` and `""` are falsy. */
  predicate Truthy(v: JsValue)
  {
    match v
    case Undefined => false
    case Null => false
    case Bool(b) => b
    case Num(n) => n != 0
    case Str(s) => s != ""
    case Arr(_) => true
    case Obj(_) => true
  }

  /** `undefined` or `null`: what the `== null` test and a required path reject. */
  predicate IsNullish(v: JsValue)
  {
    v.Undefined? || v.Null?
  }

  /** `Array.isArray(v) && !v.some(x => typeof x !== 'string')`. */
  predicate IsStringArray(v: JsValue)
  {
    v.Arr? && forall i :: 0 <= i < |v.items| ==> v.items[i].Str?
  }

  /** The strings held by an array of strings. */
  function StringsOf(v: JsValue): (r: seq<string>)
    requires IsStringArray(v)
    ensures |r| == |v.items| && forall i :: 0 <= i < |r| ==> v.items[i] == Str(r[i])
  {
    seq(|v.items|, i requires 0 <= i < |v.items| => v.items[i].s)
  }

  /** The array of strings holding `ss`. */
  function StringArray(ss: seq<string>): (v: JsValue)
    ensures IsStringArray(v) && StringsOf(v) == ss
  {
    Arr(seq(|ss|, i requires 0 <= i < |ss| => Str(ss[i])))
  }

  /** The value of property `key` in a property list, `undefined` when absent. */
  function Lookup(props: seq<(string, JsValue)>, key: string): (v: JsValue)
    ensures v != Undefined ==> exists i :: 0 <= i < |props| && props[i] == (key, v)
  {
    if props == [] then Undefined
    else if props[0].0 == key then props[0].1
    else Lookup(props[1..], key)
  }

  /** An absent name reads `undefined`; a present one reads the value of its first entry. */
  lemma {:induction false} LookupFirst(props: seq<(string, JsValue)>, key: string)
    ensures key !in Keys(props) ==> Lookup(props, key) == Undefined
    ensures forall i :: 0 <= i < |props| && props[i].0 == key && NotNamedBefore(props, key, i) ==>
              Lookup(props, key) == props[i].1
  {
    if props != [] && props[0].0 != key {
      LookupFirst(props[1..], key);
      assert key !in Keys(props) ==> key !in Keys(props[1..]) by {
        if key in Keys(props[1..]) {
          var i :| 0 <= i < |props[1..]| && props[1..][i].0 == key;
          assert props[i + 1].0 == key;
        }
      }
      forall i | 0 <= i < |props| && props[i].0 == key && NotNamedBefore(props, key, i)
        ensures Lookup(props, key) == props[i].1
      {
        assert props[1..][i - 1] == props[i];
        assert forall j :: 0 <= j < i - 1 ==> props[1..][j] == props[j + 1];
        assert NotNamedBefore(props[1..], key, i - 1);
      }
    }
  }

  /** No entry before position `i` is named `key`. */
  predicate NotNamedBefore(props: seq<(string, JsValue)>, key: string, i: int)
    requires 0 <= i <= |props|
  {
    forall j :: 0 <= j < i ==> props[j].0 != key
  }

  /** `v[key]` for the property names the application reads: only objects have them. */
  function Get(v: JsValue, key: string): JsValue
  {
    if v.Obj? then Lookup(v.props, key) else Undefined
  }

  /**
   * `{ ...props, [key]: value }`: an existing property keeps its position and
   * takes the new value; a new one is appended.
   */
  function Assign(props: seq<(string, JsValue)>, key: string, value: JsValue): (r: seq<(string, JsValue)>)
    ensures Lookup(r, key) == value
    ensures forall k :: k != key ==> Lookup(r, k) == Lookup(props, k)
  {
    if props == [] then [(key, value)]
    else if props[0].0 == key then [(key, value)] + props[1..]
    else [props[0]] + Assign(props[1..], key, value)
  }

  /** The property names of a property list. */
  function Keys(props: seq<(string, JsValue)>): set<string>
  {
    set i | 0 <= i < |props| :: props[i].0
  }

  lemma KeysCons(x: (string, JsValue), rest: seq<(string, JsValue)>)
    ensures Keys([x] + rest) == {x.0} + Keys(rest)
  {
    var l := [x] + rest;
    forall k | k in Keys(l) ensures k in {x.0} + Keys(rest) {
      var i :| 0 <= i < |l| && l[i].0 == k;
      if i > 0 { assert rest[i - 1].0 == k; }
    }
    forall k | k in Keys(rest) ensures k in Keys(l) {
      var i :| 0 <= i < |rest| && rest[i].0 == k;
      assert l[i + 1].0 == k;
    }
    assert l[0].0 == x.0;
  }

  /** Assigning a property adds its name and no other. */
  lemma {:induction false} AssignKeys(props: seq<(string, JsValue)>, key: string, value: JsValue)
    ensures Keys(Assign(props, key, value)) == Keys(props) + {key}
  {
    if props == [] {
      assert Keys([(key, value)]) == {key} by { KeysCons((key, value), []); }
    } else {
      assert props == [props[0]] + props[1..];
      KeysCons(props[0], props[1..]);
      if props[0].0 == key {
        KeysCons((key, value), props[1..]);
      } else {
        AssignKeys(props[1..], key, value);
        KeysCons(props[0], Assign(props[1..], key, value));
      }
    }
  }

  /** The names of a list are those of all but its last entry, and the last entry's. */
  lemma KeysSnoc(entries: seq<(string, JsValue)>)
    requires entries != []
    ensures Keys(entries) == Keys(entries[..|entries| - 1]) + {entries[|entries| - 1].0}
  {
    var init := entries[..|entries| - 1];
    forall k | k in Keys(entries) ensures k in Keys(init) + {entries[|entries| - 1].0} {
      var i :| 0 <= i < |entries| && entries[i].0 == k;
      if i < |init| { assert init[i] == entries[i]; }
    }
    forall k | k in Keys(init) ensures k in Keys(entries) {
      var i :| 0 <= i < |init| && init[i].0 == k;
      assert entries[i] == init[i];
    }
  }

  /** The value the last entry named `key` carries, if any entry is named `key`. */
  function LastBinding(entries: seq<(string, JsValue)>, key: string): (r: Option<JsValue>)
    ensures r.Some? <==> key in Keys(entries)
  {
    if entries == [] then None
    else if entries[|entries| - 1].0 == key then Some(entries[|entries| - 1].1)
    else
      var r := LastBinding(entries[..|entries| - 1], key);
      KeysSnoc(entries);
      r
  }

  /** `{ ...base, ...entries }`: the entries assigned one after the other. */
  function Spread(base: seq<(string, JsValue)>, entries: seq<(string, JsValue)>): seq<(string, JsValue)>
  {
    if entries == [] then base
    else Assign(Spread(base, entries[..|entries| - 1]), entries[|entries| - 1].0, entries[|entries| - 1].1)
  }

  /** After a spread, a property holds its last spread value, or the base value if it was not spread. */
  lemma {:induction false} SpreadLookup(base: seq<(string, JsValue)>, entries: seq<(string, JsValue)>, key: string)
    ensures Lookup(Spread(base, entries), key)
            == if LastBinding(entries, key).Some? then LastBinding(entries, key).value else Lookup(base, key)
  {
    if entries != [] {
      SpreadLookup(base, entries[..|entries| - 1], key);
    }
  }

  /** A spread has the base's property names and the spread ones. */
  lemma {:induction false} SpreadKeys(base: seq<(string, JsValue)>, entries: seq<(string, JsValue)>)
    ensures Keys(Spread(base, entries)) == Keys(base) + Keys(entries)
  {
    if entries != [] {
      var init := entries[..|entries| - 1];
      SpreadKeys(base, init);
      AssignKeys(Spread(base, init), entries[|entries| - 1].0, entries[|entries| - 1].1);
      KeysSnoc(entries);
    }
  }

  /**
   * `Object.entries(v)`: an object's own properties; an array's or a string's
   * indices with their elements or characters; nothing for other values.
   */
  function Entries(v: JsValue): (r: seq<(string, JsValue)>)
    ensures v.Obj? ==> r == v.props
    ensures v.Arr? ==> |r| == |v.items| && forall i :: 0 <= i < |r| ==> r[i] == (NatToString(i), v.items[i])
    ensures v.Str? ==> |r| == |v.s| && forall i :: 0 <= i < |r| ==> r[i] == (NatToString(i), Str([v.s[i]]))
    ensures !v.Obj? && !v.Arr? && !v.Str? ==> r == []
  {
    match v
    case Obj(props) => props
    case Arr(items) => seq(|items|, i requires 0 <= i < |items| => (NatToString(i), items[i]))
    case Str(s) => seq(|s|, i requires 0 <= i < |s| => (NatToString(i), Str([s[i]])))
    case _ => []
  }

  /** `String(n)` for an integer. */
  function NumberToString(n: int): string
  {
    if n < 0 then "-" + NatToString(-n) else NatToString(n)
  }

  /**
   * `String(v)`: arrays join their elements' strings with `,` (with `null` and
   * `undefined` elements as empty strings), every plain object is `[object Object]`.
   */
  function JsString(v: JsValue): string
    decreases v
  {
    match v
    case Undefined => "undefined"
    case Null => "null"
    case Bool(b) => if b then "true" else "false"
    case Num(n) => NumberToString(n)
    case Str(s) => s
    case Arr(items) =>
      Join(seq(|items|, i requires 0 <= i < |items| =>
                 if IsNullish(items[i]) then "" else JsString(items[i])), ',')
    case Obj(_) => "[object Object]"
  }
}
