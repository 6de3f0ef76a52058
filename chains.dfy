/** The shape the obfuscator emits for a synthesised string, independent of
    either walker: call-units, each of them but the first preceded by `add`
    instructions, up to an instruction that continues no chain. */
module Chains {
  import opened Abc

  /** The position after the run of `add` instructions that starts at `p`. */
  function AfterAdds(prog: Program, p: nat): (q: nat)
    requires p <= |prog|
    ensures p <= q <= |prog|
    ensures q < |prog| ==> !prog[q].op.Add?
    ensures forall k :: p <= k < q ==> prog[k].op.Add?
  {
    FirstFrom(prog, p, IsNotAdd)
  }

  /** Where a chain stops: an instruction that is no `add`, starts no call-unit,
      and can be inspected without reading past the end of the stream. */
  predicate IsChainEnd(prog: Program, p: nat) {
    && p < |prog|
    && !prog[p].op.Add?
    && !AtCallUnit(prog, p)
    && (prog[p].op.GetLocal0? ==> p + 1 < |prog|)
  }

  /** A well-formed chain starts at `p`: every run of `add` instructions is
      followed by a call-unit, and the chain is followed by a chain end. */
  predicate ChainFrom(prog: Program, p: nat)
    requires p <= |prog|
    decreases |prog| - p
  {
    || IsChainEnd(prog, p)
    || (var q := AfterAdds(prog, p); AtCallUnit(prog, q) && ChainFrom(prog, q + 2))
  }

  /** The method ids of the call-units of the chain at `p`, in stream order. */
  function ChainIds(prog: Program, p: nat): seq<nat>
    requires p <= |prog| && ChainFrom(prog, p)
    decreases |prog| - p
  {
    if IsChainEnd(prog, p) then []
    else
      var q := AfterAdds(prog, p);
      [prog[q + 1].op.property] + ChainIds(prog, q + 2)
  }

  /** The position of the chain end that closes the chain at `p`. */
  function ChainEnd(prog: Program, p: nat): (e: nat)
    requires p <= |prog| && ChainFrom(prog, p)
    ensures p <= e < |prog| && IsChainEnd(prog, e)
    decreases |prog| - p
  {
    if IsChainEnd(prog, p) then p else ChainEnd(prog, AfterAdds(prog, p) + 2)
  }

  /** A decoded string and the position the walker stopped at. */
  datatype Built = Built(text: Str, pos: nat)

  /** The character `m` holds for `id`, as a string of length 0 or 1. */
  function Lookup(m: map<nat, byte>, id: nat): (s: Str)
    ensures id in m ==> s == [m[id]]
    ensures id !in m ==> s == []
  {
    if id in m then [m[id]] else []
  }

  /** The characters of `ids` through the id-to-character table `m`, in order;
      an id the table does not hold contributes nothing. */
  function Decode(ids: seq<nat>, m: map<nat, byte>): (s: Str)
    ensures |s| <= |ids|
    ensures (forall k :: 0 <= k < |ids| ==> ids[k] in m) ==>
              |s| == |ids| && forall k :: 0 <= k < |ids| ==> s[k] == m[ids[k]]
  {
    if ids == [] then []
    else Lookup(m, ids[0]) + Decode(ids[1..], m)
  }

  /** Decoding commutes with concatenation, so the characters keep stream order. */
  lemma {:induction false} DecodeAppend(a: seq<nat>, b: seq<nat>, m: map<nat, byte>)
    ensures Decode(a + b, m) == Decode(a, m) + Decode(b, m)
    decreases |a|
  {
    if a != [] {
      assert (a + b)[0] == a[0] && (a + b)[1..] == a[1..] + b;
      DecodeAppend(a[1..], b, m);
    } else {
      assert a + b == b;
    }
  }

  /** Every id of `ids` has a character in `m`. */
  predicate AllMapped(m: map<nat, byte>, ids: seq<nat>) {
    forall k :: 0 <= k < |ids| ==> ids[k] in m
  }

  /** Decoding one more id after the characters `acc`. */
  lemma DecodeAfter(acc: Str, ids: seq<nat>, m: map<nat, byte>)
    requires ids != []
    ensures (acc + Lookup(m, ids[0])) + Decode(ids[1..], m) == acc + Decode(ids, m)
  {
    var head, rest := Lookup(m, ids[0]), Decode(ids[1..], m);
    assert Decode(ids, m) == head + rest;
    assert (acc + head) + rest == acc + (head + rest);
  }

  /** Decoding a chain that contains an unmapped id anywhere: the gap is
      dropped and the ids around it close up. */
  lemma DecodeDropsGap(a: seq<nat>, gap: nat, b: seq<nat>, m: map<nat, byte>)
    requires gap !in m
    ensures Decode(a + [gap] + b, m) == Decode(a, m) + Decode(b, m)
  {
    var ag := a + [gap];
    DecodeAppend(ag, b, m);
    DecodeAppend(a, [gap], m);
    assert Decode([gap], m) == [] by {
      assert [gap][1..] == [];
    }
    assert Decode(ag, m) == Decode(a, m);
  }

  /** One call-unit invoking accessor `id`. */
  function Unit(id: nat): seq<Instruction> {
    [Instruction(GetLocal0, 0), Instruction(CallProperty(id, 0), 0)]
  }

  /** The call-units after the first: each preceded by one `add`. */
  function AddUnits(ids: seq<nat>): seq<Instruction>
    decreases |ids|
  {
    if ids == [] then [] else [Instruction(Add, 0)] + Unit(ids[0]) + AddUnits(ids[1..])
  }

  /** The code for the concatenation `ids[0] + ids[1] + ...` of accessor calls. */
  function EncodeChain(ids: seq<nat>): seq<Instruction> {
    if ids == [] then [] else Unit(ids[0]) + AddUnits(ids[1..])
  }

  /** A call-unit in front of a chain extends it by one id. */
  lemma UnitCons(prog: Program, p: nat)
    requires AtCallUnit(prog, p) && ChainFrom(prog, p + 2)
    ensures ChainFrom(prog, p)
    ensures ChainIds(prog, p) == [prog[p + 1].op.property] + ChainIds(prog, p + 2)
    ensures ChainEnd(prog, p) == ChainEnd(prog, p + 2)
  {
    assert AfterAdds(prog, p) == p;
  }

  /** An `add` and a call-unit in front of a chain extend it by one id. */
  lemma AddUnitCons(prog: Program, p: nat)
    requires p < |prog| && prog[p].op.Add? && AtCallUnit(prog, p + 1) && ChainFrom(prog, p + 3)
    ensures ChainFrom(prog, p)
    ensures ChainIds(prog, p) == [prog[p + 2].op.property] + ChainIds(prog, p + 3)
    ensures ChainEnd(prog, p) == ChainEnd(prog, p + 3)
  {
    assert AfterAdds(prog, p) == p + 1;
  }

  /** A chain end stays one wherever it is placed. */
  lemma EndAfter(pre: Program, tail: Program)
    requires IsChainEnd(tail, 0)
    ensures IsChainEnd(pre + tail, |pre|)
  {
    var prog := pre + tail;
    assert prog[|pre|] == tail[0];
    assert |tail| > 1 ==> prog[|pre| + 1] == tail[1];
  }

  lemma {:induction false} AddUnitsChain(pre: Program, ids: seq<nat>, tail: Program)
    requires IsChainEnd(tail, 0)
    ensures var prog := pre + AddUnits(ids) + tail;
            && ChainFrom(prog, |pre|)
            && ChainIds(prog, |pre|) == ids
            && ChainEnd(prog, |pre|) == |pre| + |AddUnits(ids)|
    decreases |ids|
  {
    var prog := pre + AddUnits(ids) + tail;
    if ids == [] {
      assert prog == pre + tail;
      EndAfter(pre, tail);
    } else {
      var unit := [Instruction(Add, 0)] + Unit(ids[0]);
      var pre' := pre + unit;
      assert prog == pre' + AddUnits(ids[1..]) + tail;
      AddUnitsChain(pre', ids[1..], tail);
      var p := |pre|;
      assert prog[p] == unit[0] && prog[p + 1] == unit[1] && prog[p + 2] == unit[2];
      AddUnitCons(prog, p);
      assert [ids[0]] + ids[1..] == ids;
    }
  }

  lemma UnitsChain(pre: Program, id: nat, rest: seq<nat>, tail: Program)
    requires IsChainEnd(tail, 0)
    ensures var prog := pre + (Unit(id) + AddUnits(rest)) + tail;
            && AtCallUnit(prog, |pre|)
            && ChainFrom(prog, |pre|)
            && ChainIds(prog, |pre|) == [id] + rest
            && ChainEnd(prog, |pre|) == |pre| + 2 + |AddUnits(rest)|
  {
    var prog := pre + (Unit(id) + AddUnits(rest)) + tail;
    var unit := Unit(id);
    var pre' := pre + unit;
    assert prog == pre' + AddUnits(rest) + tail;
    AddUnitsChain(pre', rest, tail);
    assert prog[|pre|] == unit[0] && prog[|pre| + 1] == unit[1];
    UnitCons(prog, |pre|);
  }

  /** Round trip: the code emitted for `ids`, followed by any chain end, is a
      well-formed chain whose ids are exactly `ids` and which ends right after
      the emitted code. */
  lemma {:induction false} EncodeChainRoundTrip(pre: Program, ids: seq<nat>, tail: Program)
    requires IsChainEnd(tail, 0)
    ensures var prog := pre + EncodeChain(ids) + tail;
            && ChainFrom(prog, |pre|)
            && ChainIds(prog, |pre|) == ids
            && ChainEnd(prog, |pre|) == |pre| + |EncodeChain(ids)|
            && (ids != [] ==> AtCallUnit(prog, |pre|))
  {
    if ids == [] {
      assert pre + EncodeChain(ids) + tail == pre + AddUnits(ids) + tail;
      AddUnitsChain(pre, ids, tail);
    } else {
      UnitsChain(pre, ids[0], ids[1..], tail);
      assert [ids[0]] + ids[1..] == ids;
    }
  }
}
