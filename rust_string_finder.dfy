/** The Rust string walker (src/string_finder.rs). The finder drives an
    instruction iterator whose cursor is a position in the stream, `|prog|`
    once it is exhausted; `next()` stops there and `get()` there panics.
    A panic is modelled as the outcome `Panic`. */
module RustFinder {
  import opened Abc
  import opened Chains
  import CppFinder

  /** The iterator's `next()`: one step forward, never past the end. */
  function Next(prog: Program, p: nat): (r: nat)
    requires p <= |prog|
    ensures r <= |prog|
    ensures p < |prog| ==> r == p + 1
    ensures p == |prog| ==> r == p
  {
    if p < |prog| then p + 1 else p
  }

  /** `is_add_string()` at `p`: an `add`, or the `[getlocal0, callproperty]` sequence. */
  predicate IsAddString(prog: Program, p: nat) {
    AtAdd(prog, p) || AtCallUnit(prog, p)
  }

  /** `skip_string()` from `p`. */
  function SkipStringFrom(prog: Program, p: nat): (r: nat)
    requires p <= |prog|
    ensures p <= r <= |prog| && !IsAddString(prog, r)
    decreases |prog| - p
  {
    if !IsAddString(prog, p) then p
    else if AtAdd(prog, p) then SkipStringFrom(prog, Next(prog, Next(prog, p)))
    else SkipStringFrom(prog, Next(prog, p))
  }

  datatype Step = Char(chr: nat, pos: nat) | NoChar(pos: nat) | StepPanic

  /** `next_char()` at `p`: the id read (or none) and where the cursor is left. */
  function NextCharAt(prog: Program, p: nat): (r: Step)
    requires p <= |prog|
    ensures r.Char? ==> p + 2 <= r.pos < |prog|
    ensures r.NoChar? ==> p <= r.pos <= |prog|
    ensures r.NoChar? && IsAddString(prog, p) ==> p < r.pos
    ensures !IsAddString(prog, p) ==> r == NoChar(p)
    ensures r.Char? ==>
              var u := Next(prog, AfterAdds(prog, p));
              && u < |prog| && prog[u].op.CallProperty?
              && r.chr == prog[u].op.property && r.pos == u + 1
  {
    if !IsAddString(prog, p) then NoChar(p)
    else
      var r := Next(prog, AfterAdds(prog, p));
      if r == |prog| then StepPanic
      else if !prog[r].op.CallProperty? then NoChar(r)
      else if r + 1 < |prog| then Char(prog[r].op.property, r + 1)
      else NoChar(r + 1)
  }

  datatype Matched = Matched(ok: bool, pos: nat)

  /** `match_target(target)` from `p`; `methods[&b]` panics for an unmapped id. */
  function MatchFrom(prog: Program, p: nat, methods: map<nat, byte>, target: Str): (r: Outcome<Matched>)
    requires p <= |prog|
    ensures r.Return? ==> p <= r.value.pos <= |prog|
    ensures r.Return? && target != [] && IsAddString(prog, p) ==> p < r.value.pos
    decreases |target|
  {
    if target == [] then Return(Matched(true, p))
    else
      match NextCharAt(prog, p)
      case StepPanic => Panic
      case NoChar(q) => Return(Matched(false, SkipStringFrom(prog, q)))
      case Char(b, q) =>
        if b !in methods then Panic
        else if methods[b] == target[0] then MatchFrom(prog, q, methods, target[1..])
        else Return(Matched(false, SkipStringFrom(prog, q)))
  }

  /** The `while let Some(idx) = self.next_char()` loop of `build` from `p`,
      with `acc` the bytes already pushed. */
  function BuildLoopFrom(prog: Program, p: nat, methods: map<nat, byte>, acc: Str): (r: Outcome<Built>)
    requires p <= |prog|
    ensures r.Return? ==> p <= r.value.pos <= |prog|
    decreases |prog| - p
  {
    match NextCharAt(prog, p)
    case StepPanic => Panic
    case NoChar(q) => Return(Built(acc, q))
    case Char(b, q) => BuildLoopFrom(prog, q, methods, acc + Lookup(methods, b))
  }

  /** `build()` from `p`: resynchronise unless at a call-unit, then decode. */
  function BuildFrom(prog: Program, p: nat, methods: map<nat, byte>): (r: Outcome<Built>)
    requires p <= |prog|
    ensures r.Return? ==> p <= r.value.pos <= |prog|
  {
    var start := if AtCallUnit(prog, p) then p else FirstCallUnit(prog, p);
    BuildLoopFrom(prog, start, methods, [])
  }

  // ---------------------------------------------------------------------------
  // Properties of the walker

  /** On a call-unit, `skip_string` moves one step and stops on the
      `callproperty`, inside the call-unit. */
  lemma SkipAtCallUnit(prog: Program, p: nat)
    requires AtCallUnit(prog, p)
    ensures SkipStringFrom(prog, p) == p + 1
  {
  }

  /** At a chain end `next_char` reads nothing and leaves the cursor in place;
      inside a well-formed chain it reads the chain's next id, as the C++ walker does. */
  lemma NextCharOnChain(prog: Program, p: nat)
    requires p <= |prog| && ChainFrom(prog, p)
    ensures IsChainEnd(prog, p) ==> NextCharAt(prog, p) == NoChar(p)
    ensures !IsChainEnd(prog, p) ==>
              var q := AfterAdds(prog, p);
              && NextCharAt(prog, p) == Char(ChainIds(prog, p)[0], q + 2)
              && ChainFrom(prog, q + 2)
              && ChainIds(prog, q + 2) == ChainIds(prog, p)[1..]
              && ChainEnd(prog, q + 2) == ChainEnd(prog, p)
  {
    if !IsChainEnd(prog, p) {
      var q := AfterAdds(prog, p);
      assert ChainEnd(prog, q + 2) < |prog|;
    }
  }

  /** A call-unit that ends the stream is not read: `next()` after its
      `callproperty` finds nothing, so `next_char` reports no id, while the
      C++ walker reads that last id. */
  lemma TrailingUnitDropped(prog: Program, p: nat)
    requires AtCallUnit(prog, p) && p + 2 == |prog|
    ensures NextCharAt(prog, p) == NoChar(|prog|)
    ensures CppFinder.NextCharAt(prog, p) == Some(CppFinder.Char(prog[p + 1].op.property, |prog|))
  {
    CppFinder.NextCharAtCallUnit(prog, p);
  }

  /** The `build` loop on a well-formed chain appends exactly the characters of
      the chain's ids and stops at the chain's end. */
  lemma {:induction false} BuildLoopOnChain(prog: Program, p: nat, methods: map<nat, byte>, acc: Str)
    requires p <= |prog| && ChainFrom(prog, p)
    ensures BuildLoopFrom(prog, p, methods, acc)
              == Return(Built(acc + Decode(ChainIds(prog, p), methods), ChainEnd(prog, p)))
    decreases |prog| - p
  {
    var ids := ChainIds(prog, p);
    NextCharOnChain(prog, p);
    if IsChainEnd(prog, p) {
      assert acc + Decode(ids, methods) == acc;
    } else {
      var q := AfterAdds(prog, p);
      BuildLoopOnChain(prog, q + 2, methods, acc + Lookup(methods, ids[0]));
      DecodeAfter(acc, ids, methods);
    }
  }

  /** `build` at the start of a well-formed chain returns the chain's
      characters through `methods` and stops at the chain's end. */
  lemma BuildOnChain(prog: Program, p: nat, methods: map<nat, byte>, ids: seq<nat>, e: nat)
    requires p <= |prog| && ChainFrom(prog, p) && AtCallUnit(prog, p)
    requires ids == ChainIds(prog, p) && e == ChainEnd(prog, p)
    ensures BuildFrom(prog, p, methods) == Return(Built(Decode(ids, methods), e))
  {
    BuildLoopOnChain(prog, p, methods, []);
    assert [] + Decode(ids, methods) == Decode(ids, methods);
  }

  /** Round trip: `build` on the code emitted for `ids`, followed by a chain
      end, returns the characters of `ids` through `methods`. */
  lemma BuildRoundTrip(pre: Program, ids: seq<nat>, tail: Program, methods: map<nat, byte>)
    requires IsChainEnd(tail, 0) && |ids| > 0
    ensures var r := BuildFrom(pre + EncodeChain(ids) + tail, |pre|, methods);
            r.Return? && r.value.text == Decode(ids, methods) && r.value.pos == |pre| + |EncodeChain(ids)|
  {
    var prog := pre + EncodeChain(ids) + tail;
    EncodeChainRoundTrip(pre, ids, tail);
    BuildOnChain(prog, |pre|, methods, ids, |pre| + |EncodeChain(ids)|);
  }

  /** The first `|target|` ids of `ids` are all mapped and read as `target`. */
  predicate SpellsMapped(methods: map<nat, byte>, ids: seq<nat>, target: Str) {
    |target| <= |ids| && forall k :: 0 <= k < |target| ==> ids[k] in methods && methods[ids[k]] == target[k]
  }

  lemma SpellsMappedStep(methods: map<nat, byte>, ids: seq<nat>, target: Str)
    requires |target| > 0 && |ids| > 0
    ensures SpellsMapped(methods, ids, target) <==>
              ids[0] in methods && methods[ids[0]] == target[0] && SpellsMapped(methods, ids[1..], target[1..])
  {
    if ids[0] in methods && methods[ids[0]] == target[0] && SpellsMapped(methods, ids[1..], target[1..]) {
      forall k | 0 <= k < |target|
        ensures ids[k] in methods && methods[ids[k]] == target[k]
      {
        if k > 0 {
          assert ids[1..][k - 1] == ids[k];
        }
      }
    }
  }

  lemma {:induction false} SkipAddRun(prog: Program, x: nat, q: nat)
    requires x <= q && AtCallUnit(prog, q)
    requires forall i :: x <= i < q ==> prog[i].op.Add?
    ensures SkipStringFrom(prog, x) == q + 1
    decreases q - x
  {
    if x + 1 < q {
      SkipAddRun(prog, x + 2, q);
    }
  }

  /** Inside a well-formed chain `skip_string` stops on the `callproperty` of
      the next call-unit, not at the chain's end (the C++ walker reaches the
      end); only at the chain's end does it stay put. */
  lemma SkipInChain(prog: Program, p: nat)
    requires p <= |prog| && ChainFrom(prog, p)
    ensures IsChainEnd(prog, p) ==> SkipStringFrom(prog, p) == p
    ensures !IsChainEnd(prog, p) ==>
              && SkipStringFrom(prog, p) == AfterAdds(prog, p) + 1
              && SkipStringFrom(prog, p) < ChainEnd(prog, p)
              && prog[SkipStringFrom(prog, p)].op.CallProperty?
  {
    if !IsChainEnd(prog, p) {
      SkipAddRun(prog, p, AfterAdds(prog, p));
    }
  }

  /** The two walkers' `skip_string` part ways on `a() + b()`: the C++ walker
      skips the whole chain, the Rust walker stops inside the first call-unit. */
  lemma SkipDiverges()
    ensures var prog := [Instruction(GetLocal0, 0), Instruction(CallProperty(1, 0), 1),
                         Instruction(Add, 2), Instruction(GetLocal0, 3),
                         Instruction(CallProperty(2, 0), 4), Instruction(Other(0, []), 5)];
            && ChainFrom(prog, 0)
            && CppFinder.SkipStringFrom(prog, 0) == Some(ChainEnd(prog, 0)) && ChainEnd(prog, 0) == 5
            && SkipStringFrom(prog, 0) == 1
  {
    var prog := [Instruction(GetLocal0, 0), Instruction(CallProperty(1, 0), 1),
                 Instruction(Add, 2), Instruction(GetLocal0, 3),
                 Instruction(CallProperty(2, 0), 4), Instruction(Other(0, []), 5)];
    assert IsChainEnd(prog, 5);
    assert AfterAdds(prog, 2) == 3;
    assert ChainFrom(prog, 2);
    assert AfterAdds(prog, 0) == 0;
    CppFinder.SkipOnChain(prog, 0);
  }
  /** On a well-formed chain whose ids are all mapped, `match_target` succeeds
      exactly when the chain's first ids read as the target. A failure leaves the
      cursor at the chain's end or on a `callproperty` inside the chain; success
      on a chain exactly as long as the target leaves it at the chain's end. */
  lemma {:induction false} MatchOnChain(prog: Program, p: nat, methods: map<nat, byte>, target: Str)
    requires p <= |prog| && ChainFrom(prog, p)
    requires AllMapped(methods, ChainIds(prog, p))
    ensures MatchFrom(prog, p, methods, target).Return?
    ensures var r := MatchFrom(prog, p, methods, target).value;
            && (r.ok <==> SpellsMapped(methods, ChainIds(prog, p), target))
            && (!r.ok ==> r.pos == ChainEnd(prog, p)
                          || (r.pos < ChainEnd(prog, p) && prog[r.pos].op.CallProperty?))
            && (r.ok && |target| == |ChainIds(prog, p)| ==> r.pos == ChainEnd(prog, p))
    decreases |target|
  {
    NextCharOnChain(prog, p);
    if target == [] {
    } else if IsChainEnd(prog, p) {
      SkipInChain(prog, p);
      assert MatchFrom(prog, p, methods, target) == Return(Matched(false, SkipStringFrom(prog, p)));
    } else {
      var ids := ChainIds(prog, p);
      var q := AfterAdds(prog, p);
      assert ids[0] in methods;
      SpellsMappedStep(methods, ids, target);
      if methods[ids[0]] != target[0] {
        SkipInChain(prog, q + 2);
        assert MatchFrom(prog, p, methods, target) == Return(Matched(false, SkipStringFrom(prog, q + 2)));
      } else {
        assert MatchFrom(prog, p, methods, target) == MatchFrom(prog, q + 2, methods, target[1..]);
        assert AllMapped(methods, ChainIds(prog, q + 2)) by {
          forall k | 0 <= k < |ids[1..]| ensures ids[1..][k] in methods {
            assert ids[1..][k] == ids[k + 1];
          }
        }
        MatchOnChain(prog, q + 2, methods, target[1..]);
      }
    }
  }

  /** An unmapped id is fatal: `match_target` panics at the chain's first id when
      the table does not hold it. */
  lemma MatchPanicsOnUnmapped(prog: Program, p: nat, methods: map<nat, byte>, target: Str)
    requires p <= |prog| && ChainFrom(prog, p) && !IsChainEnd(prog, p)
    requires ChainIds(prog, p)[0] !in methods && target != []
    ensures MatchFrom(prog, p, methods, target) == Panic
  {
    NextCharOnChain(prog, p);
  }

  /** On a well-formed chain starting at a call-unit, the Rust and the C++
      `build` return the same bytes and leave the cursor at the same place. */
  lemma BuildsAgree(prog: Program, p: nat, methods: map<nat, byte>)
    requires p <= |prog| && ChainFrom(prog, p) && AtCallUnit(prog, p)
    ensures CppFinder.BuildFrom(prog, p, methods).Some?
    ensures BuildFrom(prog, p, methods) == Return(CppFinder.BuildFrom(prog, p, methods).value)
  {
    var ids, e := ChainIds(prog, p), ChainEnd(prog, p);
    BuildOnChain(prog, p, methods, ids, e);
    CppFinder.BuildOnChain(prog, p, methods, ids, e);
  }

  /** The Rust walker. `cursor` is the iterator's position. */
  class StringFinder {
    const prog: Program
    const methods: map<nat, byte>
    var cursor: nat

    ghost predicate Valid()
      reads this
    {
      cursor <= |prog|
    }

    constructor (prog: Program, methods: map<nat, byte>, cursor: nat)
      requires cursor <= |prog|
      ensures Valid() && this.prog == prog && this.methods == methods && this.cursor == cursor
    {
      this.prog := prog;
      this.methods := methods;
      this.cursor := cursor;
    }

    /** `is_add_string()`. */
    function IsAddStringHere(): (r: bool)
      reads this
      requires Valid()
      ensures r <==> IsAddString(prog, cursor)
    {
      (cursor < |prog| && prog[cursor].op.Add?)
      || (cursor + 1 < |prog| && prog[cursor].op.GetLocal0? && prog[cursor + 1].op.CallProperty?)
    }

    /** `next_string()`: the iterator's `skip_until_seq` to the next call-unit. */
    method NextString() returns (found: bool)
      requires Valid()
      modifies this
      ensures Valid()
      ensures cursor == FirstCallUnit(prog, old(cursor))
      ensures found <==> cursor < |prog|
    {
      cursor := FirstCallUnit(prog, cursor);
      found := cursor < |prog|;
    }

    /** `skip_string()`. */
    method SkipString()
      requires Valid()
      modifies this
      ensures Valid()
      ensures cursor == SkipStringFrom(prog, old(cursor))
    {
      ghost var start := cursor;
      while IsAddStringHere()
        invariant cursor <= |prog|
        invariant SkipStringFrom(prog, cursor) == SkipStringFrom(prog, start)
        decreases |prog| - cursor
      {
        if cursor < |prog| && prog[cursor].op.Add? {
          cursor := Next(prog, cursor);
        }
        cursor := Next(prog, cursor);
      }
    }

    /** `next_char()`: `Return(Some(id))`, `Return(None)`, or a panic in `get()`. */
    method NextChar() returns (r: Outcome<Option<nat>>)
      requires Valid()
      modifies this
      ensures Valid()
      ensures NextCharAt(prog, old(cursor)) == StepPanic <==> r == Panic
      ensures NextCharAt(prog, old(cursor)).Char? ==>
                r == Return(Some(NextCharAt(prog, old(cursor)).chr)) && cursor == NextCharAt(prog, old(cursor)).pos
      ensures NextCharAt(prog, old(cursor)).NoChar? ==>
                r == Return(None) && cursor == NextCharAt(prog, old(cursor)).pos
    {
      if !IsAddStringHere() {
        return Return(None);
      }
      ghost var start := cursor;
      while cursor < |prog| && prog[cursor].op.Add?
        invariant start <= cursor <= |prog|
        invariant AfterAdds(prog, cursor) == AfterAdds(prog, start)
        decreases |prog| - cursor
      {
        cursor := Next(prog, cursor);
      }
      cursor := Next(prog, cursor);
      if cursor == |prog| {
        return Panic;
      }
      if !prog[cursor].op.CallProperty? {
        return Return(None);
      }
      var prop := prog[cursor].op.property;
      cursor := Next(prog, cursor);
      if cursor < |prog| {
        r := Return(Some(prop));
      } else {
        r := Return(None);
      }
    }

    /** `match_target(target)`: `Return(matched)` or a panic. */
    method MatchTarget(target: Str) returns (r: Outcome<bool>)
      requires Valid()
      modifies this
      ensures Valid()
      ensures MatchFrom(prog, old(cursor), methods, target).Panic? <==> r.Panic?
      ensures r.Return? ==> MatchFrom(prog, old(cursor), methods, target) == Return(Matched(r.value, cursor))
    {
      var i := 0;
      while i < |target|
        invariant 0 <= i <= |target| && cursor <= |prog|
        invariant MatchFrom(prog, old(cursor), methods, target) == MatchFrom(prog, cursor, methods, target[i..])
        decreases |target| - i
      {
        ghost var before := cursor;
        var c := NextChar();
        if c.Panic? {
          return Panic;
        }
        if c.value.Some? {
          if c.value.value !in methods {
            return Panic;
          }
          if methods[c.value.value] == target[i] {
            assert target[i..][1..] == target[i + 1..];
            i := i + 1;
            continue;
          }
        }
        SkipString();
        return Return(false);
      }
      r := Return(true);
    }

    /** `build()`: `Return(bytes)` or a panic. */
    method Build() returns (r: Outcome<Str>)
      requires Valid()
      modifies this
      ensures Valid()
      ensures BuildFrom(prog, old(cursor), methods).Panic? <==> r.Panic?
      ensures r.Return? ==> BuildFrom(prog, old(cursor), methods) == Return(Built(r.value, cursor))
    {
      ghost var total := BuildFrom(prog, cursor, methods);
      var str: Str := [];
      if !(cursor + 1 < |prog| && prog[cursor].op.GetLocal0? && prog[cursor + 1].op.CallProperty?) {
        var _ := NextString();
      }
      while true
        invariant cursor <= |prog|
        invariant BuildLoopFrom(prog, cursor, methods, str) == total
        decreases |prog| - cursor
      {
        var c := NextChar();
        if c.Panic? {
          return Panic;
        }
        if c.value.None? {
          break;
        }
        var idx := c.value.value;
        if idx in methods {
          str := str + [methods[idx]];
        } else {
          assert str + Lookup(methods, idx) == str;
        }
      }
      r := Return(str);
    }
  }
}
