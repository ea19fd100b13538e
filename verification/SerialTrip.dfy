/** The whole way of values through memory: packed, perhaps appended to or flattened, and unpacked
    (lserialize.c:425-442, 655-679, 710-766; shaco.lua:80-83). */
module SerialTrip {
  import opened Basics
  import opened Serial
  import opened SerialBlocks
  import opened SerialPack
  import opened SerialUnpack

  lemma GotIs<T>(p: Parsed<T>, r: Option<T>, v: T, t: seq<Byte>)
    requires p == Got(v, t) && Reads(p, r, [])
    ensures r == Some(v)
  {
  }

  /** lpack and lunpack */
  method PackUnpack(vs: Values) returns (r: Option<Values>)
    requires ProperAll(vs) && 4 + |EncAll(vs)| < INT_LIMIT
    ensures r == if PackableAll(vs, 0) then Some(vs) else None
  {
    hide EncAll, DecRest, PackableAll, ProperAll, Message;
    var bs := Pack(vs);
    if bs.None? { return None; }
    ghost var freed;
    r, freed := Unpack(bs.value, EncAll(vs));
    ListBack(vs);
    GotIs(DecRest(EncAll(vs)), r, vs, []);
  }

  /** shaco.pack and shaco.unpack: lpack, lserialize and deserialize_buffer */
  method PackFlatten(vs: Values) returns (r: Option<Values>)
    requires ProperAll(vs) && 4 + |EncAll(vs)| < INT_LIMIT
    ensures r == if PackableAll(vs, 0) then Some(vs) else None
  {
    hide EncAll, DecRest, PackableAll, ProperAll, Message, Little;
    var bs := Pack(vs);
    if bs.None? { return None; }
    ghost var freed;
    var buffer;
    buffer, freed := Flatten(bs.value, EncAll(vs));
    r := Deserialize(buffer, EncAll(vs));
    ListBack(vs);
    GotIs(DecRest(EncAll(vs)), r, vs, []);
  }

  /** lpack, lappend, lserialize and deserialize_buffer */
  method AppendFlatten(vs: Values, ws: Values) returns (r: Option<Values>)
    requires ProperAll(vs) && ProperAll(ws) && 4 + |EncAll(vs)| + |EncAll(ws)| < INT_LIMIT
    ensures r == if PackableAll(vs, 0) && PackableAll(ws, 0) then Some(Concat(vs, ws)) else None
  {
    hide EncAll, DecRest, PackableAll, ProperAll, Joined, Chain, Little;
    var bs := Pack(vs);
    if bs.None? { return None; }
    NotEmpty(bs.value, EncAll(vs));
    assert bs.value[0] in bs.value && bs.value[|bs.value| - 1] in bs.value;
    var all := AppendTo(bs.value, ws, EncAll(vs));
    if all.None? { return None; }
    ghost var payload := EncAll(vs) + EncAll(ws);
    ghost var freed;
    var buffer;
    buffer, freed := Flatten(all.value, payload);
    r := Deserialize(buffer, payload);
    AppendedBack(vs, ws);
    GotIs(DecRest(payload), r, Concat(vs, ws), []);
  }
}
