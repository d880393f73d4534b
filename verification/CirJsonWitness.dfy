/** A JSON text codec that loses nothing, so the demand the round trips make of
    their environment can be met with any operator columns and scalar table. */
module CirJsonWitness {
  import opened Wrappers
  import opened CirBytes
  import opened CirIr

  predicate IsAscii(s: seq<Byte>) { forall i :: 0 <= i < |s| ==> s[i] < 0x80 }

  /** A count in unary. */
  function PutNat(n: nat): (r: seq<Byte>)
    ensures IsAscii(r) && |r| > 0
  {
    if n == 0 then [0] else [1] + PutNat(n - 1)
  }

  function GetNat(s: seq<Byte>): (r: Dec<nat>)
    ensures r.Got? ==> |r.rest| < |s|
  {
    if s == [] || s[0] > 1 then Fail
    else if s[0] == 0 then Got(0, s[1..])
    else
      var (n, rest) :- GetNat(s[1..]);
      Got(n + 1, rest)
  }

  lemma {:induction false} NatStep(s: seq<Byte>)
    ensures GetNat([0] + s) == Got(0, s)
    ensures GetNat([1] + s) == match GetNat(s) case Got(n, rest) => Got(n + 1, rest) case Fail => Fail
  {
    assert ([0] + s)[1..] == s && ([1] + s)[1..] == s;
  }

  lemma {:induction false} NatInverts(n: nat, rest: seq<Byte>)
    ensures GetNat(PutNat(n) + rest) == Got(n, rest)
  {
    hide GetNat;
    if n == 0 {
      NatStep(rest);
    } else {
      NatInverts(n - 1, rest);
      NatStep(PutNat(n - 1) + rest);
      assert PutNat(n) + rest == [1] + (PutNat(n - 1) + rest);
    }
  }

  /** Bytes as pairs of half bytes. */
  function PutHalves(t: seq<Byte>): (r: seq<Byte>)
    ensures IsAscii(r)
  {
    if t == [] then [] else [t[0] / 16, t[0] % 16] + PutHalves(t[1..])
  }

  function GetHalves(k: nat, s: seq<Byte>): (r: Dec<seq<Byte>>)
    ensures r.Got? ==> |r.rest| <= |s|
    decreases k
  {
    if k == 0 then Got([], s)
    else if |s| < 2 || s[0] >= 16 || s[1] >= 16 then Fail
    else
      var (tail, rest) :- GetHalves(k - 1, s[2..]);
      Got([16 * s[0] + s[1]] + tail, rest)
  }

  lemma {:induction false} HalvesStep(k: nat, b: Byte, s: seq<Byte>)
    ensures GetHalves(k + 1, [b / 16, b % 16] + s) == match GetHalves(k, s) case Got(tail, rest) => Got([b] + tail, rest) case Fail => Fail
  {
    assert ([b / 16, b % 16] + s)[2..] == s;
    assert 16 * (b / 16) + b % 16 == b;
  }

  lemma {:induction false} HalvesInvert(t: seq<Byte>, rest: seq<Byte>)
    ensures GetHalves(|t|, PutHalves(t) + rest) == Got(t, rest)
    decreases |t|
  {
    if t == [] {
      assert PutHalves(t) + rest == rest;
    } else {
      hide GetHalves;
      HalvesInvert(t[1..], rest);
      HalvesStep(|t| - 1, t[0], PutHalves(t[1..]) + rest);
      assert PutHalves(t) + rest == [t[0] / 16, t[0] % 16] + (PutHalves(t[1..]) + rest);
      assert [t[0]] + t[1..] == t;
    }
  }

  function PutText(t: Text): (r: seq<Byte>)
    ensures IsAscii(r)
  {
    PutNat(|t|) + PutHalves(t)
  }

  function GetText(s: seq<Byte>): (r: Dec<Text>)
    ensures r.Got? ==> |r.rest| < |s|
  {
    var (n, s1) :- GetNat(s);
    var (t, s2) :- GetHalves(n, s1);
    if ValidUtf8(t) then Got(t, s2) else Fail
  }

  lemma {:induction false} TextInverts(t: Text, rest: seq<Byte>)
    ensures GetText(PutText(t) + rest) == Got(t, rest)
  {
    NatInverts(|t|, PutHalves(t) + rest);
    assert PutText(t) + rest == PutNat(|t|) + (PutHalves(t) + rest);
    HalvesInvert(t, rest);
  }

  // ---------------------------------------------------------------- values

  function Put(j: Json): (r: seq<Byte>)
    ensures IsAscii(r)
    decreases j
  {
    match j
    case JNull => [0]
    case JBool(b) => if b then [2] else [1]
    case JNumber(n) => if n < 0 then [4] + PutNat(-n) else [3] + PutNat(n)
    case JString(s) => [5] + PutText(s)
    case JArray(items) => [6] + PutNat(|items|) + PutItems(items)
    case JObject(entries) => [7] + PutNat(|entries|) + PutEntries(entries)
  }

  function PutItems(items: seq<Json>): (r: seq<Byte>)
    ensures IsAscii(r)
    decreases items
  {
    if items == [] then [] else Put(items[0]) + PutItems(items[1..])
  }

  function PutEntries(entries: seq<(Text, Json)>): (r: seq<Byte>)
    ensures IsAscii(r)
    decreases entries
  {
    if entries == [] then []
    else
      assert entries[0].1 < entries[0];
      PutText(entries[0].0) + Put(entries[0].1) + PutEntries(entries[1..])
  }

  function Get(s: seq<Byte>): (r: Dec<Json>)
    ensures r.Got? ==> |r.rest| < |s|
    decreases |s|, 0
  {
    if s == [] then Fail else GetTagged(s[0], s[1..])
  }

  function GetTagged(tag: Byte, s: seq<Byte>): (r: Dec<Json>)
    ensures r.Got? ==> |r.rest| <= |s|
    decreases |s|, 2
  {
    match tag
    case 0 => Got(JNull, s)
    case 1 => Got(JBool(false), s)
    case 2 => Got(JBool(true), s)
    case 3 => var (n, rest) :- GetNat(s); Got(JNumber(n), rest)
    case 4 => var (n, rest) :- GetNat(s); Got(JNumber(0 - n), rest)
    case 5 => var (t, rest) :- GetText(s); Got(JString(t), rest)
    case 6 =>
      var (n, s1) :- GetNat(s);
      var (items, rest) :- GetItems(n, s1);
      Got(JArray(items), rest)
    case 7 =>
      var (n, s1) :- GetNat(s);
      var (entries, rest) :- GetEntries(n, s1);
      Got(JObject(entries), rest)
    case _ => Fail
  }

  function GetItems(n: nat, s: seq<Byte>): (r: Dec<seq<Json>>)
    ensures r.Got? ==> |r.rest| <= |s|
    decreases |s|, 1
  {
    if n == 0 then Got([], s)
    else
      var (first, s1) :- Get(s);
      var (others, rest) :- GetItems(n - 1, s1);
      Got([first] + others, rest)
  }

  function GetEntries(n: nat, s: seq<Byte>): (r: Dec<seq<(Text, Json)>>)
    ensures r.Got? ==> |r.rest| <= |s|
    decreases |s|, 1
  {
    if n == 0 then Got([], s)
    else
      var (key, s1) :- GetText(s);
      var (value, s2) :- Get(s1);
      var (others, rest) :- GetEntries(n - 1, s2);
      Got([(key, value)] + others, rest)
  }

  lemma {:induction false} TagStep(tag: Byte, s: seq<Byte>)
    ensures Get([tag] + s) == GetTagged(tag, s)
  {
    hide GetTagged;
    assert ([tag] + s)[1..] == s;
  }

  lemma {:induction false} NumberInverts(n: int, rest: seq<Byte>)
    ensures Get(Put(JNumber(n)) + rest) == Got(JNumber(n), rest)
  {
    hide Get, GetNat, PutNat, IsAscii;
    var size := if n < 0 then -n else n;
    var tag := if n < 0 then 4 else 3;
    TagStep(tag, PutNat(size) + rest);
    assert Put(JNumber(n)) + rest == [tag] + (PutNat(size) + rest);
    NatInverts(size, rest);
  }

  lemma {:induction false} ArrayInverts(items: seq<Json>, rest: seq<Byte>)
    requires GetItems(|items|, PutItems(items) + rest) == Got(items, rest)
    ensures Get(Put(JArray(items)) + rest) == Got(JArray(items), rest)
  {
    hide Get, GetNat, PutNat, GetItems, PutItems, IsAscii;
    var body := PutItems(items) + rest;
    TagStep(6, PutNat(|items|) + body);
    assert Put(JArray(items)) + rest == [6] + (PutNat(|items|) + body);
    NatInverts(|items|, body);
  }

  lemma {:induction false} ObjectInverts(entries: seq<(Text, Json)>, rest: seq<Byte>)
    requires GetEntries(|entries|, PutEntries(entries) + rest) == Got(entries, rest)
    ensures Get(Put(JObject(entries)) + rest) == Got(JObject(entries), rest)
  {
    hide Get, GetNat, PutNat, GetEntries, PutEntries, IsAscii;
    var body := PutEntries(entries) + rest;
    TagStep(7, PutNat(|entries|) + body);
    assert Put(JObject(entries)) + rest == [7] + (PutNat(|entries|) + body);
    NatInverts(|entries|, body);
  }

  lemma {:induction false} PutInverts(j: Json, rest: seq<Byte>)
    ensures Get(Put(j) + rest) == Got(j, rest)
    decreases j
  {
    hide Get, GetText, PutText, IsAscii;
    match j
    case JNull => TagStep(0, rest);
    case JBool(b) => TagStep(if b then 2 else 1, rest);
    case JNumber(n) => NumberInverts(n, rest);
    case JString(t) =>
      TagStep(5, PutText(t) + rest);
      assert Put(j) + rest == [5] + (PutText(t) + rest);
      TextInverts(t, rest);
    case JArray(items) =>
      ItemsInvert(items, rest);
      ArrayInverts(items, rest);
    case JObject(entries) =>
      EntriesInvert(entries, rest);
      ObjectInverts(entries, rest);
  }

  lemma {:induction false} ItemsInvert(items: seq<Json>, rest: seq<Byte>)
    ensures GetItems(|items|, PutItems(items) + rest) == Got(items, rest)
    decreases items
  {
    if items == [] {
      assert PutItems(items) + rest == rest;
    } else {
      hide Get, Put, IsAscii;
      var more := PutItems(items[1..]) + rest;
      assert PutItems(items) + rest == Put(items[0]) + more;
      PutInverts(items[0], more);
      ItemsInvert(items[1..], rest);
      assert [items[0]] + items[1..] == items;
    }
  }

  lemma {:induction false} EntriesInvert(entries: seq<(Text, Json)>, rest: seq<Byte>)
    ensures GetEntries(|entries|, PutEntries(entries) + rest) == Got(entries, rest)
    decreases entries
  {
    if entries == [] {
      assert PutEntries(entries) + rest == rest;
    } else {
      hide Get, Put, GetText, PutText, IsAscii;
      var (key, value) := entries[0];
      var more := PutEntries(entries[1..]) + rest;
      assert PutEntries(entries) + rest == PutText(key) + (Put(value) + more);
      TextInverts(key, Put(value) + more);
      assert value < entries[0];
      PutInverts(value, more);
      EntriesInvert(entries[1..], rest);
      assert [(key, value)] + entries[1..] == entries;
    }
  }

  function Print(j: Json): Text {
    AsciiIsUtf8(Put(j));
    Put(j)
  }

  function Parse(t: Text): Option<Json> {
    match Get(t)
    case Got(j, rest) => if rest == [] then Some(j) else None
    case Fail => None
  }

  /** The demand can be met, whatever the rest of the environment is. */
  lemma {:induction false} SomeEnvIsLossless(operatorColumns: Text -> Option<(Byte, Byte, Byte)>, scalarMeta: Text -> Option<(Byte, nat)>)
    ensures Lossless(Env(operatorColumns, scalarMeta, Print, Parse))
  {
    hide Put, Get;
    forall j: Json
      ensures Parse(Print(j)) == Some(j)
    {
      PutInverts(j, []);
      assert Put(j) + [] == Put(j);
    }
  }
}
