/** The C++ string walker (lib/string_finder.cpp). The finder's cursor `ins`
    is a position in the instruction stream; `|prog|` is `nullptr`.
    The C++ code reads through `ins` and `ins->next` without null checks and
    reads `args[0]` without a size check, so every operation is first given as
    a function that returns `None` exactly where the C++ behaviour is
    undefined; the methods of `StringFinder` require `Some` and are proved to
    compute the value. */
module CppFinder {
  import opened Abc
  import opened Chains

  /** `is_string()` can be evaluated at `p`: `ins` is not null, and when it is a
      `getlocal0`, `ins->next` is not null either. */
  predicate CanRead(prog: Program, p: nat) {
    p < |prog| && (prog[p].op.GetLocal0? ==> p + 1 < |prog|)
  }

  datatype Found = Found(found: bool, pos: nat)
  datatype CharStep = NotInChain | Char(chr: nat, pos: nat)
  datatype Matched = Matched(ok: bool, pos: nat, methods: map<nat, byte>)

  /** `next_string()` from `p`. */
  function NextStringFrom(prog: Program, p: nat): (r: Option<Found>)
    requires p <= |prog|
    ensures r.Some? ==> p <= r.value.pos <= |prog|
    ensures r.Some? && r.value.found ==> AtCallUnit(prog, r.value.pos)
    decreases |prog| - p
  {
    if p == |prog| then Some(Found(false, p))
    else if !CanRead(prog, p) then None
    else if AtCallUnit(prog, p) then Some(Found(true, p))
    else NextStringFrom(prog, p + 1)
  }

  /** `while (ins->opcode == OP::add) ins = ins->next;` from `p`. */
  function SkipAddsFrom(prog: Program, p: nat): (r: Option<nat>)
    requires p <= |prog|
    ensures r.Some? ==> p <= r.value < |prog|
    decreases |prog| - p
  {
    if p == |prog| then None
    else if prog[p].op.Add? then SkipAddsFrom(prog, p + 1)
    else Some(p)
  }

  /** `next_char(chr)` at `p`. */
  function NextCharAt(prog: Program, p: nat): (r: Option<CharStep>)
    requires p <= |prog|
    ensures r.Some? && r.value.Char? ==> p + 2 <= r.value.pos <= |prog|
  {
    if !CanRead(prog, p) then None
    else if !(AtCallUnit(prog, p) || prog[p].op.Add?) then Some(NotInChain)
    else
      match SkipAddsFrom(prog, p)
      case None => None
      case Some(q) =>
        if q + 1 < |prog| && |Args(prog[q + 1].op)| > 0
        then Some(Char(Args(prog[q + 1].op)[0], q + 2))
        else None
  }

  /** `skip_string()` from `p`. */
  function SkipStringFrom(prog: Program, p: nat): (r: Option<nat>)
    requires p <= |prog|
    ensures r.Some? ==> p <= r.value < |prog|
    ensures r.Some? ==> CanRead(prog, r.value) && !AtCallUnit(prog, r.value) && !AtAdd(prog, r.value)
    decreases |prog| - p
  {
    if !CanRead(prog, p) then None
    else if !(AtCallUnit(prog, p) || prog[p].op.Add?) then Some(p)
    else if !prog[p].op.Add? then SkipStringFrom(prog, p + 2)
    else SkipStringFrom(prog, p + 1)
  }

  /** The `while (next_char(chr))` loop of `build` from `p`, with `acc` the
      characters already pushed onto `str`. */
  function BuildLoopFrom(prog: Program, p: nat, methods: map<nat, byte>, acc: Str): (r: Option<Built>)
    requires p <= |prog|
    ensures r.Some? ==> p <= r.value.pos <= |prog|
    decreases |prog| - p
  {
    match NextCharAt(prog, p)
    case None => None
    case Some(NotInChain) => Some(Built(acc, p))
    case Some(Char(c, q)) => BuildLoopFrom(prog, q, methods, acc + Lookup(methods, c))
  }

  /** `build(methods)` from `p`. */
  function BuildFrom(prog: Program, p: nat, methods: map<nat, byte>): (r: Option<Built>)
    requires p <= |prog|
    ensures r.Some? ==> p <= r.value.pos <= |prog|
  {
    if !CanRead(prog, p) then None
    else if AtCallUnit(prog, p) then BuildLoopFrom(prog, p, methods, [])
    else
      match NextStringFrom(prog, p)
      case None => None
      case Some(f) => BuildLoopFrom(prog, f.pos, methods, [])
  }

  /** The character `methods[chr]` reads: an absent id reads as '\0' (and is inserted). */
  function Indexed(methods: map<nat, byte>, chr: nat): byte {
    if chr in methods then methods[chr] else 0
  }

  /** `match_target(finder, target, methods)` with the finder at `p` (lib/unpacker.cpp
      and src/unpacker.cpp have the same body). `methods[chr]` inserts a '\0'
      entry for an id it does not hold, so the result carries the grown table. */
  function MatchFrom(prog: Program, p: nat, methods: map<nat, byte>, target: Str): (r: Option<Matched>)
    requires p <= |prog|
    ensures r.Some? ==> p <= r.value.pos <= |prog|
    ensures r.Some? && |target| > 0 && AtCallUnit(prog, p) ==> p < r.value.pos
    ensures r.Some? ==> methods.Keys <= r.value.methods.Keys
    ensures r.Some? ==> forall i :: i in r.value.methods ==> r.value.methods[i] == Indexed(methods, i)
    decreases |target|
  {
    if target == [] then Some(Matched(true, p, methods))
    else
      match NextCharAt(prog, p)
      case None => None
      case Some(NotInChain) =>
        (match SkipStringFrom(prog, p)
         case None => None
         case Some(e) => Some(Matched(false, e, methods)))
      case Some(Char(c, q)) =>
        var grown := methods[c := Indexed(methods, c)];
        if grown[c] != target[0] then
          (match SkipStringFrom(prog, q)
           case None => None
           case Some(e) => Some(Matched(false, e, grown)))
        else MatchFrom(prog, q, grown, target[1..])
  }

  /** One step of `MatchFrom` on a character of the chain. */
  lemma MatchCharStep(prog: Program, p: nat, methods: map<nat, byte>, target: Str, c: nat, q: nat)
    requires p <= |prog| && target != [] && NextCharAt(prog, p) == Some(Char(c, q))
    ensures var grown := methods[c := Indexed(methods, c)];
            MatchFrom(prog, p, methods, target) ==
              if grown[c] != target[0] then
                (match SkipStringFrom(prog, q)
                 case None => None
                 case Some(e) => Some(Matched(false, e, grown)))
              else MatchFrom(prog, q, grown, target[1..])
  {
  }

  // ---------------------------------------------------------------------------
  // Properties of the walker

  /** `next_string` finds exactly the first call-unit at or after `p`, and it is
      defined unless the scan reaches a `getlocal0` that is the last instruction. */
  lemma {:induction false} NextStringFindsFirst(prog: Program, p: nat)
    requires p <= |prog|
    ensures NextStringFrom(prog, p).Some? <==>
              (FirstCallUnit(prog, p) < |prog| || p == |prog| || !prog[|prog| - 1].op.GetLocal0?)
    ensures NextStringFrom(prog, p).Some? ==>
              NextStringFrom(prog, p).value == Found(FirstCallUnit(prog, p) < |prog|, FirstCallUnit(prog, p))
    decreases |prog| - p
  {
    if p < |prog| && CanRead(prog, p) && !AtCallUnit(prog, p) {
      NextStringFindsFirst(prog, p + 1);
    }
  }

  /** At a call-unit `next_string` does not move. */
  lemma NextStringStaysAtCallUnit(prog: Program, p: nat)
    requires p <= |prog| && AtCallUnit(prog, p)
    ensures NextStringFrom(prog, p) == Some(Found(true, p))
  {
  }

  lemma {:induction false} SkipAddsFindsEnd(prog: Program, p: nat)
    requires p <= |prog|
    ensures AfterAdds(prog, p) < |prog| ==> SkipAddsFrom(prog, p) == Some(AfterAdds(prog, p))
    ensures AfterAdds(prog, p) == |prog| ==> SkipAddsFrom(prog, p) == None
    decreases |prog| - p
  {
    if p < |prog| && prog[p].op.Add? {
      SkipAddsFindsEnd(prog, p + 1);
      assert AfterAdds(prog, p) == AfterAdds(prog, p + 1);
    }
  }

  /** `next_char` is `false` without moving exactly when the cursor is in no
      chain; otherwise it skips the `add` run, takes the first operand of the
      instruction after the next one, and leaves the cursor two past the run. */
  lemma NextCharSteps(prog: Program, p: nat)
    requires p <= |prog| && NextCharAt(prog, p).Some?
    ensures NextCharAt(prog, p).value.NotInChain? <==> !(AtCallUnit(prog, p) || AtAdd(prog, p))
    ensures NextCharAt(prog, p).value.Char? ==>
              var q := AfterAdds(prog, p);
              && q + 1 < |prog| && |Args(prog[q + 1].op)| > 0
              && NextCharAt(prog, p).value == Char(Args(prog[q + 1].op)[0], q + 2)
  {
    SkipAddsFindsEnd(prog, p);
  }

  /** On a call-unit (no leading adds), `next_char` yields the callproperty's
      property id and consumes exactly the two instructions. */
  lemma NextCharAtCallUnit(prog: Program, p: nat)
    requires AtCallUnit(prog, p)
    ensures NextCharAt(prog, p) == Some(Char(prog[p + 1].op.property, p + 2))
  {
    assert SkipAddsFrom(prog, p) == Some(p);
  }

  /** On a well-formed chain that is not at its end, `next_char` returns the
      chain's first id and leaves the cursor at the rest of the chain. */
  lemma NextCharOnChain(prog: Program, p: nat)
    requires p <= |prog| && ChainFrom(prog, p) && !IsChainEnd(prog, p)
    ensures var q := AfterAdds(prog, p);
            && NextCharAt(prog, p) == Some(Char(ChainIds(prog, p)[0], q + 2))
            && ChainFrom(prog, q + 2)
            && ChainIds(prog, q + 2) == ChainIds(prog, p)[1..]
            && ChainEnd(prog, q + 2) == ChainEnd(prog, p)
  {
    SkipAddsFindsEnd(prog, p);
  }

  lemma {:induction false} SkipAddRun(prog: Program, k: nat, q: nat)
    requires k <= q < |prog| && AtCallUnit(prog, q)
    requires forall i :: k <= i < q ==> prog[i].op.Add?
    ensures SkipStringFrom(prog, k) == SkipStringFrom(prog, q)
    decreases q - k
  {
    if k < q {
      SkipAddRun(prog, k + 1, q);
    }
  }

  /** `skip_string` on a well-formed chain stops at the chain's end. */
  lemma {:induction false} SkipOnChain(prog: Program, p: nat)
    requires p <= |prog| && ChainFrom(prog, p)
    ensures SkipStringFrom(prog, p) == Some(ChainEnd(prog, p))
    decreases |prog| - p
  {
    if !IsChainEnd(prog, p) {
      var q := AfterAdds(prog, p);
      SkipAddRun(prog, p, q);
      SkipOnChain(prog, q + 2);
    }
  }

  /** The `build` loop on a well-formed chain appends exactly the characters of
      the chain's ids and stops at the chain's end. */
  lemma {:induction false} BuildLoopOnChain(prog: Program, p: nat, methods: map<nat, byte>, acc: Str)
    requires p <= |prog| && ChainFrom(prog, p)
    ensures BuildLoopFrom(prog, p, methods, acc)
              == Some(Built(acc + Decode(ChainIds(prog, p), methods), ChainEnd(prog, p)))
    decreases |prog| - p
  {
    var ids := ChainIds(prog, p);
    if IsChainEnd(prog, p) {
      assert acc + Decode(ids, methods) == acc;
    } else {
      var q := AfterAdds(prog, p);
      NextCharOnChain(prog, p);
      var acc' := acc + Lookup(methods, ids[0]);
      BuildLoopOnChain(prog, q + 2, methods, acc');
      DecodeAfter(acc, ids, methods);
    }
  }

  /** `skip_string` and the decode loop of `build` leave the cursor at the same
      position on a well-formed chain. */
  lemma SkipAgreesWithBuild(prog: Program, p: nat, methods: map<nat, byte>, acc: Str)
    requires p <= |prog| && ChainFrom(prog, p)
    ensures SkipStringFrom(prog, p).Some? && BuildLoopFrom(prog, p, methods, acc).Some?
    ensures SkipStringFrom(prog, p).value == BuildLoopFrom(prog, p, methods, acc).value.pos
  {
    SkipOnChain(prog, p);
    BuildLoopOnChain(prog, p, methods, acc);
  }

  /** The `build` loop only appends to `str`, and at most one character per
      call-unit it consumes. */
  lemma {:induction false} BuildLoopLength(prog: Program, p: nat, methods: map<nat, byte>, acc: Str)
    requires p <= |prog| && BuildLoopFrom(prog, p, methods, acc).Some?
    ensures var b := BuildLoopFrom(prog, p, methods, acc).value;
            && |acc| <= |b.text| && b.text[..|acc|] == acc
            && 2 * (|b.text| - |acc|) <= b.pos - p
    decreases |prog| - p
  {
    match NextCharAt(prog, p)
    case Some(NotInChain) =>
    case Some(Char(c, q)) =>
      var acc' := acc + Lookup(methods, c);
      BuildLoopLength(prog, q, methods, acc');
      var b := BuildLoopFrom(prog, p, methods, acc).value;
      assert b.text[..|acc'|][..|acc|] == b.text[..|acc|];
  }

  /** `build` resynchronises first only when not at a call-unit. */
  lemma BuildResyncs(prog: Program, p: nat, methods: map<nat, byte>)
    requires p <= |prog| && CanRead(prog, p)
    ensures AtCallUnit(prog, p) ==> BuildFrom(prog, p, methods) == BuildLoopFrom(prog, p, methods, [])
    ensures !AtCallUnit(prog, p) && NextStringFrom(prog, p).Some? ==>
              BuildFrom(prog, p, methods) == BuildLoopFrom(prog, FirstCallUnit(prog, p), methods, [])
  {
    NextStringFindsFirst(prog, p);
  }

  /** `build` at the start of a well-formed chain returns the chain's
      characters through `methods` and stops at the chain's end. */
  lemma BuildOnChain(prog: Program, p: nat, methods: map<nat, byte>, ids: seq<nat>, e: nat)
    requires p <= |prog| && ChainFrom(prog, p) && AtCallUnit(prog, p)
    requires ids == ChainIds(prog, p) && e == ChainEnd(prog, p)
    ensures BuildFrom(prog, p, methods) == Some(Built(Decode(ids, methods), e))
  {
    BuildLoopOnChain(prog, p, methods, []);
    assert [] + Decode(ids, methods) == Decode(ids, methods);
  }

  /** Round trip: the walker's `build` on the code emitted for `ids`, followed by
      a chain end, returns the characters of `ids` through `methods`. */
  lemma BuildRoundTrip(pre: Program, ids: seq<nat>, tail: Program, methods: map<nat, byte>)
    requires IsChainEnd(tail, 0) && |ids| > 0
    ensures var r := BuildFrom(pre + EncodeChain(ids) + tail, |pre|, methods);
            r.Some? && r.value.text == Decode(ids, methods) && r.value.pos == |pre| + |EncodeChain(ids)|
  {
    var prog := pre + EncodeChain(ids) + tail;
    EncodeChainRoundTrip(pre, ids, tail);
    BuildOnChain(prog, |pre|, methods, ids, |pre| + |EncodeChain(ids)|);
  }

  /** The first `|target|` ids of `ids` read as `target` through `methods[chr]`. */
  predicate Spells(methods: map<nat, byte>, ids: seq<nat>, target: Str)
    decreases |target|
  {
    target == [] || (ids != [] && Indexed(methods, ids[0]) == target[0] && Spells(methods, ids[1..], target[1..]))
  }

  /** `Spells`, position by position. */
  lemma {:induction false} SpellsMeans(methods: map<nat, byte>, ids: seq<nat>, target: Str)
    ensures Spells(methods, ids, target) <==>
              |target| <= |ids| && forall k :: 0 <= k < |target| ==> Indexed(methods, ids[k]) == target[k]
    decreases |target|
  {
    if target != [] && ids != [] {
      SpellsMeans(methods, ids[1..], target[1..]);
      assert forall k :: 0 <= k < |ids[1..]| ==> ids[1..][k] == ids[k + 1];
      assert forall k :: 0 <= k < |target[1..]| ==> target[1..][k] == target[k + 1];
      if |target| <= |ids| && forall k :: 0 <= k < |target| ==> Indexed(methods, ids[k]) == target[k] {
        assert Indexed(methods, ids[0]) == target[0];
      }
    }
  }

  /** The '\0' entry `methods[chr]` inserts reads as the absent entry did. */
  lemma {:induction false} SpellsGrown(methods: map<nat, byte>, c: nat, ids: seq<nat>, target: Str)
    ensures Spells(methods[c := Indexed(methods, c)], ids, target) <==> Spells(methods, ids, target)
    decreases |target|
  {
    var grown := methods[c := Indexed(methods, c)];
    assert forall i :: Indexed(grown, i) == Indexed(methods, i);
    if target != [] && ids != [] {
      SpellsGrown(methods, c, ids[1..], target[1..]);
    }
  }

  /** On a well-formed chain, `match_target` succeeds exactly when the chain's
      first ids read (through `methods[chr]`, which reads an absent id as '\0')
      as the target. On a mismatch at any position, including the last, and on
      a chain shorter than the target, the cursor ends at the chain's end; on
      success with a chain of exactly the target's length it does too. */
  lemma {:induction false} MatchOnChain(prog: Program, p: nat, methods: map<nat, byte>, target: Str)
    requires p <= |prog| && ChainFrom(prog, p)
    ensures MatchFrom(prog, p, methods, target).Some?
    ensures var r := MatchFrom(prog, p, methods, target).value;
            && (r.ok <==> Spells(methods, ChainIds(prog, p), target))
            && (!r.ok ==> r.pos == ChainEnd(prog, p))
            && (r.ok && |target| == |ChainIds(prog, p)| ==> r.pos == ChainEnd(prog, p))
    decreases |target|
  {
    if target == [] {
    } else if IsChainEnd(prog, p) {
      assert SkipStringFrom(prog, p) == Some(p);
      assert MatchFrom(prog, p, methods, target) == Some(Matched(false, p, methods));
    } else {
      var ids := ChainIds(prog, p);
      var q := AfterAdds(prog, p);
      NextCharOnChain(prog, p);
      var c := ids[0];
      var grown := methods[c := Indexed(methods, c)];
      if grown[c] != target[0] {
        SkipOnChain(prog, q + 2);
        assert MatchFrom(prog, p, methods, target) == Some(Matched(false, ChainEnd(prog, p), grown));
      } else {
        assert MatchFrom(prog, p, methods, target) == MatchFrom(prog, q + 2, grown, target[1..]);
        MatchOnChain(prog, q + 2, grown, target[1..]);
        SpellsGrown(methods, c, ids[1..], target[1..]);
      }
    }
  }

  /** A chain whose first id the table does not hold: `methods[chr]` inserts a
      '\0' entry for it, and unless the target starts with '\0' the match fails
      at the chain's end, handing on the grown table. */
  lemma MatchInsertsZero(prog: Program, p: nat, methods: map<nat, byte>, target: Str)
    requires p <= |prog| && ChainFrom(prog, p) && !IsChainEnd(prog, p)
    requires ChainIds(prog, p)[0] !in methods && target != [] && target[0] != 0
    ensures MatchFrom(prog, p, methods, target)
              == Some(Matched(false, ChainEnd(prog, p), methods[ChainIds(prog, p)[0] := 0]))
  {
    var q := AfterAdds(prog, p);
    NextCharOnChain(prog, p);
    SkipOnChain(prog, q + 2);
  }

  /** When the table holds every id of the chain, `match_target` inserts
      nothing. */
  lemma {:induction false} MatchKeepsMappedTable(prog: Program, p: nat, methods: map<nat, byte>, target: Str)
    requires p <= |prog| && ChainFrom(prog, p) && AllMapped(methods, ChainIds(prog, p))
    ensures MatchFrom(prog, p, methods, target).Some?
    ensures MatchFrom(prog, p, methods, target).value.methods == methods
    decreases |target|
  {
    if target == [] {
    } else if IsChainEnd(prog, p) {
      assert SkipStringFrom(prog, p) == Some(p);
      assert MatchFrom(prog, p, methods, target) == Some(Matched(false, p, methods));
    } else {
      var ids := ChainIds(prog, p);
      var q := AfterAdds(prog, p);
      NextCharOnChain(prog, p);
      var c := ids[0];
      assert c in methods;
      assert methods[c := Indexed(methods, c)] == methods;
      if methods[c] != target[0] {
        SkipOnChain(prog, q + 2);
        assert MatchFrom(prog, p, methods, target) == Some(Matched(false, ChainEnd(prog, p), methods));
      } else {
        assert MatchFrom(prog, p, methods, target) == MatchFrom(prog, q + 2, methods, target[1..]);
        assert AllMapped(methods, ChainIds(prog, q + 2)) by {
          forall k | 0 <= k < |ids[1..]| ensures ids[1..][k] in methods {
            assert ids[1..][k] == ids[k + 1];
          }
        }
        MatchKeepsMappedTable(prog, q + 2, methods, target[1..]);
      }
    }
  }

  /** The C++ walker over a stream. `ins` is the cursor; `|prog|` is null. */
  class StringFinder {
    const prog: Program
    var ins: nat

    ghost predicate Valid()
      reads this
    {
      ins <= |prog|
    }

    constructor (prog: Program, ins: nat)
      requires ins <= |prog|
      ensures Valid() && this.prog == prog && this.ins == ins
    {
      this.prog := prog;
      this.ins := ins;
    }

    /** `is_string()`: the cursor is at a call-unit. */
    function IsString(): (r: bool)
      reads this
      requires Valid() && CanRead(prog, ins)
      ensures r <==> AtCallUnit(prog, ins)
    {
      prog[ins].op.GetLocal0? && prog[ins + 1].op.CallProperty?
    }

    /** `is_add_string()`: the cursor is at a call-unit or at an `add`. */
    function IsAddString(): (r: bool)
      reads this
      requires Valid() && CanRead(prog, ins)
      ensures r <==> AtCallUnit(prog, ins) || AtAdd(prog, ins)
    {
      IsString() || prog[ins].op.Add?
    }

    /** `is_next_add_string()`: the successor is at a call-unit or at an `add`. */
    function IsNextAddString(): (r: bool)
      reads this
      requires Valid() && ins < |prog| && CanRead(prog, ins + 1)
      ensures r <==> AtCallUnit(prog, ins + 1) || AtAdd(prog, ins + 1)
    {
      (prog[ins + 1].op.GetLocal0? && prog[ins + 2].op.CallProperty?) || prog[ins + 1].op.Add?
    }

    /** `addr()`: the address of the current instruction. */
    function Addr(): (a: nat)
      reads this
      requires Valid() && ins < |prog|
      ensures a == prog[ins].addr
    {
      prog[ins].addr
    }

    /** `next_string()`. */
    method NextString() returns (found: bool)
      requires Valid() && NextStringFrom(prog, ins).Some?
      modifies this
      ensures Valid()
      ensures NextStringFrom(prog, old(ins)) == Some(Found(found, ins))
    {
      ghost var start := ins;
      while ins < |prog|
        invariant ins <= |prog|
        invariant NextStringFrom(prog, ins) == NextStringFrom(prog, start)
        decreases |prog| - ins
      {
        if IsString() {
          return true;
        }
        ins := ins + 1;
      }
      return false;
    }

    /** `next_char(chr)`: `chr` is the by-reference parameter, left as it was
        when the cursor is in no chain. */
    method NextChar(chr0: nat) returns (ok: bool, chr: nat)
      requires Valid() && NextCharAt(prog, ins).Some?
      modifies this
      ensures Valid()
      ensures ok <==> NextCharAt(prog, old(ins)).value.Char?
      ensures ok ==> NextCharAt(prog, old(ins)) == Some(Char(chr, ins))
      ensures !ok ==> chr == chr0 && ins == old(ins)
    {
      if !IsAddString() {
        return false, chr0;
      }
      ghost var start := ins;
      while prog[ins].op.Add?
        invariant start <= ins <= |prog|
        invariant SkipAddsFrom(prog, ins) == SkipAddsFrom(prog, start) && SkipAddsFrom(prog, ins).Some?
        decreases |prog| - ins
      {
        ins := ins + 1;
      }
      ins := ins + 1;
      chr := Args(prog[ins].op)[0];
      ins := ins + 1;
      ok := true;
    }

    /** `skip_string()`. */
    method SkipString()
      requires Valid() && SkipStringFrom(prog, ins).Some?
      modifies this
      ensures Valid()
      ensures SkipStringFrom(prog, old(ins)) == Some(ins)
    {
      ghost var start := ins;
      while IsAddString()
        invariant ins <= |prog|
        invariant SkipStringFrom(prog, ins) == SkipStringFrom(prog, start) && SkipStringFrom(prog, ins).Some?
        decreases |prog| - ins
      {
        if !prog[ins].op.Add? {
          ins := ins + 1;
        }
        ins := ins + 1;
      }
    }

    /** `build(methods)`: `methods` is passed by value and only looked up. */
    method Build(methods: map<nat, byte>) returns (str: Str)
      requires Valid() && BuildFrom(prog, ins, methods).Some?
      modifies this
      ensures Valid()
      ensures BuildFrom(prog, old(ins), methods) == Some(Built(str, ins))
    {
      ghost var total := BuildFrom(prog, ins, methods).value;
      if !IsString() {
        var _ := NextString();
      }
      str := [];
      var chr: nat := 0;
      while true
        invariant ins <= |prog|
        invariant BuildLoopFrom(prog, ins, methods, str) == Some(total)
        decreases |prog| - ins
      {
        var ok;
        ok, chr := NextChar(chr);
        if !ok {
          break;
        }
        if chr in methods {
          str := str + [methods[chr]];
        } else {
          assert str + Lookup(methods, chr) == str;
        }
      }
    }
  }
}
