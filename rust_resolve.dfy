/** What the Rust unpacker computes from the `frame1` ABC file. The older crate
    (src/unpacker.rs) and the newer one (unpacker/src/unpacker.rs) share these
    definitions; they differ in their error types and in how `resolve_methods`
    treats a method index outside the method table (`lenient` below). A panic
    is the outcome `Panic`; a returned error is a `Failure`, which each crate
    names with its own error type. */
module RustResolve {
  import opened Abc
  import opened Chains
  import opened RustFinder
  import opened Utf8
  import CppResolve

  /** Why a resolution step returns an error. */
  datatype Failure =
    | NoClass                   // `get_class(0)` failed
    | NoMethod                  // `get_method(index)` failed
    | NoKeymap                  // `resolve_methods` without a keymap
    | KeymapIndex(operand: byte) // a `pushbyte` operand outside the keymap
    | NoSuper                   // no `constructsuper` in the instance initialiser
    | BadUtf8                   // a decoded name is not UTF-8

  /** `resolve_keymap`: the pool string of the first `PushString` of `code`
      (`strings.get`, so `None` when its index is out of range); without a
      `PushString` the keymap stays `keymap0`. */
  function KeymapFrom(strings: seq<Str>, code: Program, keymap0: Option<Str>): (r: Option<Str>)
    ensures FirstFrom(code, 0, IsPushString) == |code| ==> r == keymap0
    ensures FirstFrom(code, 0, IsPushString) < |code| ==>
              exists i :: && 0 <= i < |code| && code[i].op.PushString?
                          && (forall k :: 0 <= k < i ==> !code[k].op.PushString?)
                          && (r.Some? <==> code[i].op.index < |strings|)
                          && (r.Some? ==> r.value == strings[code[i].op.index])
  {
    var i := FirstFrom(code, 0, IsPushString);
    if i == |code| then keymap0
    else if code[i].op.index < |strings| then Some(strings[code[i].op.index])
    else None
  }

  /** What one trait does to the table. */
  datatype TraitResult = Skip | Insert(chr: byte) | Fail(failure: Failure)

  /** One iteration of the `itraits` loop: a Method trait whose method takes
      `...rest` and has `max_stack == 2` maps its name to the keymap byte its
      first `PushByte` selects (`as_bytes().get`, an error when out of range).
      A method index outside the table panics (`methods[index]`), or, when
      `lenient`, skips the trait (`methods.get(index)` with `continue`). */
  function TraitEntry(abc: AbcFile, keymap: Str, t: Trait, lenient: bool): (r: Outcome<TraitResult>)
    ensures r.Return? && (r.value.Insert? || r.value.Fail?) ==>
              && t.kind == Method && t.index < |abc.methods| && IsAccessor(abc.methods[t.index])
              && var code := abc.methods[t.index].code;
                 var i := FirstFrom(code, 0, IsPushByte);
                 && i < |code|
                 && (r.value.Insert? ==> code[i].op.value < |keymap| && r.value.chr == keymap[code[i].op.value])
                 && (r.value.Fail? ==> code[i].op.value >= |keymap| && r.value.failure == KeymapIndex(code[i].op.value))
    ensures r.Panic? <==> t.kind == Method && t.index >= |abc.methods| && !lenient
  {
    if t.kind != Method then Return(Skip)
    else if t.index >= |abc.methods| then (if lenient then Return(Skip) else Panic)
    else
      var m := abc.methods[t.index];
      if !IsAccessor(m) then Return(Skip)
      else
        var i := FirstFrom(m.code, 0, IsPushByte);
        if i == |m.code| then Return(Skip)
        else
          var b := m.code[i].op.value;
          if b < |keymap| then Return(Insert(keymap[b])) else Return(Fail(KeymapIndex(b)))
  }

  /** The table after the loop, and the error that stopped it, if any; entries
      inserted before an error stay in the table. */
  datatype MapRun = MapRun(methods: map<nat, byte>, failure: Option<Failure>)

  /** The `itraits` loop from `acc`. */
  function CharMapFrom(abc: AbcFile, keymap: Str, traits: seq<Trait>, acc: map<nat, byte>, lenient: bool)
    : (r: Outcome<MapRun>)
    ensures r.Return? ==> acc.Keys <= r.value.methods.Keys
    ensures r.Return? && r.value.failure.Some? ==> r.value.failure.value.KeymapIndex?
    decreases |traits|
  {
    if traits == [] then Return(MapRun(acc, None))
    else
      match TraitEntry(abc, keymap, traits[0], lenient)
      case Panic => Panic
      case Return(Skip) => CharMapFrom(abc, keymap, traits[1..], acc, lenient)
      case Return(Insert(c)) => CharMapFrom(abc, keymap, traits[1..], acc[traits[0].name := c], lenient)
      case Return(Fail(f)) => Return(MapRun(acc, Some(f)))
  }

  /** `resolve_methods`: an error without a keymap, a panic without a class. */
  function ResolveMethodsOf(abc: AbcFile, keymap: Option<Str>, acc: map<nat, byte>, lenient: bool): (r: Outcome<MapRun>)
    ensures keymap.None? ==> r == Return(MapRun(acc, Some(NoKeymap)))
    ensures keymap.Some? && |abc.classes| == 0 ==> r == Panic
  {
    if keymap.None? then Return(MapRun(acc, Some(NoKeymap)))
    else if |abc.classes| == 0 then Panic
    else CharMapFrom(abc, keymap.value, abc.classes[0].itraits, acc, lenient)
  }

  /** What one iteration of the resource-order loop does. */
  datatype Round =
    | Stop                        // `next_string()` was false
    | Skipped(pos: nat)           // the chain was not "writeBytes"
    | Recorded(name: Str, pos: nat)
    | Rejected                    // the name was not UTF-8

  /** One iteration of `while finder.next_string() { if finder.match_target(target)
      { finder.next_string(); order.push(String::from_utf8(finder.build())?) } }` from `p`;
      the unpacker's target is `"writeBytes"`. */
  function OrderRound(prog: Program, p: nat, methods: map<nat, byte>, target: Str): (r: Outcome<Round>)
    requires p <= |prog| && target != []
    ensures r.Return? && (r.value.Skipped? || r.value.Recorded?) ==> p < r.value.pos <= |prog|
    ensures r.Return? && r.value.Recorded? ==> ValidUtf8(r.value.name)
  {
    var q := FirstCallUnit(prog, p);
    if q == |prog| then Return(Stop)
    else
      match MatchFrom(prog, q, methods, target)
      case Panic => Panic
      case Return(m) =>
        if !m.ok then Return(Skipped(m.pos))
        else
          match BuildFrom(prog, FirstCallUnit(prog, m.pos), methods)
          case Panic => Panic
          case Return(b) =>
            if ValidUtf8(b.text) then Return(Recorded(b.text, b.pos)) else Return(Rejected)
  }

  /** The names recorded so far, and the error that stopped the loop, if any. */
  datatype OrderRun = OrderRun(order: seq<Str>, failure: Option<Failure>)

  /** The resource-order loop from `p`, with `order` the names recorded so far. */
  function OrderFrom(prog: Program, p: nat, methods: map<nat, byte>, target: Str, order: seq<Str>): (r: Outcome<OrderRun>)
    requires p <= |prog| && target != []
    ensures r.Return? ==> |order| <= |r.value.order| && r.value.order[..|order|] == order
    ensures r.Return? && r.value.failure.Some? ==> r.value.failure == Some(BadUtf8)
    decreases |prog| - p
  {
    match OrderRound(prog, p, methods, target)
    case Panic => Panic
    case Return(Stop) => Return(OrderRun(order, None))
    case Return(Rejected) => Return(OrderRun(order, Some(BadUtf8)))
    case Return(Skipped(e)) => OrderFrom(prog, e, methods, target, order)
    case Return(Recorded(name, e)) =>
      var r := OrderFrom(prog, e, methods, target, order + [name]);
      if r.Return? then PrefixOfPrefix(r.value.order, order + [name], order); r else r
  }

  /** The second half of `resolve_order`: an error when `code` holds no
      `constructsuper`, otherwise the loop from the first one. */
  function SuperOrderFrom(code: Program, methods: map<nat, byte>, target: Str, order: seq<Str>): (r: Outcome<OrderRun>)
    requires target != []
    ensures FirstFrom(code, 0, IsConstructSuper) == |code| ==> r == Return(OrderRun(order, Some(NoSuper)))
    ensures r.Return? ==> |order| <= |r.value.order| && r.value.order[..|order|] == order
  {
    var s := FirstFrom(code, 0, IsConstructSuper);
    if s == |code| then Return(OrderRun(order, Some(NoSuper))) else OrderFrom(code, s, methods, target, order)
  }

  /** What `resolve_order` leaves behind, and the error it returns, if any. */
  datatype Resolution = Resolution(keymap: Option<Str>, methods: map<nat, byte>, order: seq<Str>,
                                   failure: Option<Failure>)

  /** `resolve_order` from the unpacker's `keymap0`, `methods0` and `order0`. */
  function ResolveOrderOf(abc: AbcFile, keymap0: Option<Str>, methods0: map<nat, byte>, order0: seq<Str>,
                          lenient: bool): (r: Outcome<Resolution>)
    ensures r.Return? && r.value.failure.None? ==> |abc.classes| > 0 && r.value.keymap.Some?
    ensures r.Return? ==> |order0| <= |r.value.order| && r.value.order[..|order0|] == order0
  {
    if |abc.classes| == 0 then Return(Resolution(keymap0, methods0, order0, Some(NoClass)))
    else
      var cls := abc.classes[0];
      if cls.cinit >= |abc.methods| then Return(Resolution(keymap0, methods0, order0, Some(NoMethod)))
      else
        var keymap := KeymapFrom(abc.strings, abc.methods[cls.cinit].code, keymap0);
        match ResolveMethodsOf(abc, keymap, methods0, lenient)
        case Panic => Panic
        case Return(mr) =>
          if mr.failure.Some? then Return(Resolution(keymap, mr.methods, order0, mr.failure))
          else if cls.iinit >= |abc.methods| then Return(Resolution(keymap, mr.methods, order0, Some(NoMethod)))
          else
            match SuperOrderFrom(abc.methods[cls.iinit].code, mr.methods, WriteBytes, order0)
            case Panic => Panic
            case Return(run) => Return(Resolution(keymap, mr.methods, run.order, run.failure))
  }

  // ---------------------------------------------------------------------------
  // Properties

  /** The Rust keymap is the C++ one wherever the C++ lookup is defined; where
      the C++ code indexes the pool out of range, the Rust keymap is `None`. */
  lemma KeymapsAgree(strings: seq<Str>, code: Program, keymap0: Str)
    ensures CppResolve.KeymapFrom(strings, code, keymap0).Some? ==>
              KeymapFrom(strings, code, Some(keymap0)) == CppResolve.KeymapFrom(strings, code, keymap0)
    ensures CppResolve.KeymapFrom(strings, code, keymap0).None? ==> KeymapFrom(strings, code, None) == None
  {
  }

  /** When the Rust loop ends without an error, its table is the C++ one: the
      C++ code reads the same bytes (and, in the strict crate, the same method
      table; the lenient crate agrees wherever the C++ lookups are defined). */
  lemma {:induction false} CharMapsAgree(abc: AbcFile, keymap: Str, traits: seq<Trait>, acc: map<nat, byte>,
                                         lenient: bool)
    requires CharMapFrom(abc, keymap, traits, acc, lenient).Return?
    requires CharMapFrom(abc, keymap, traits, acc, lenient).value.failure.None?
    requires lenient ==> CppResolve.CharMapFrom(abc, keymap, traits, acc).Some?
    ensures CppResolve.CharMapFrom(abc, keymap, traits, acc) == Some(CharMapFrom(abc, keymap, traits, acc, lenient).value.methods)
    decreases |traits|
  {
    if traits != [] {
      var t := traits[0];
      var next := match TraitEntry(abc, keymap, t, lenient)
                  case Return(Insert(c)) => acc[t.name := c]
                  case _ => acc;
      assert CharMapFrom(abc, keymap, traits, acc, lenient) == CharMapFrom(abc, keymap, traits[1..], next, lenient);
      assert CppResolve.CharMapFrom(abc, keymap, traits, acc) == CppResolve.CharMapFrom(abc, keymap, traits[1..], next);
      CharMapsAgree(abc, keymap, traits[1..], next, lenient);
    }
  }

  /** Wherever the strict crate does not panic, the lenient one computes the
      same table and stops with the same error: they differ only on a method
      index outside the method table. */
  lemma {:induction false} LenientAgrees(abc: AbcFile, keymap: Str, traits: seq<Trait>, acc: map<nat, byte>)
    requires CharMapFrom(abc, keymap, traits, acc, false).Return?
    ensures CharMapFrom(abc, keymap, traits, acc, true) == CharMapFrom(abc, keymap, traits, acc, false)
    decreases |traits|
  {
    if traits != [] {
      var t := traits[0];
      assert TraitEntry(abc, keymap, t, true) == TraitEntry(abc, keymap, t, false);
      match TraitEntry(abc, keymap, t, false)
      case Return(Skip) =>
        LenientAgrees(abc, keymap, traits[1..], acc);
      case Return(Insert(c)) =>
        LenientAgrees(abc, keymap, traits[1..], acc[t.name := c]);
      case Return(Fail(_)) =>
    }
  }

  /** The same for the whole of `resolve_order`. */
  lemma LenientResolvesAlike(abc: AbcFile, keymap0: Option<Str>, methods0: map<nat, byte>, order0: seq<Str>)
    requires ResolveOrderOf(abc, keymap0, methods0, order0, false).Return?
    ensures ResolveOrderOf(abc, keymap0, methods0, order0, true) == ResolveOrderOf(abc, keymap0, methods0, order0, false)
  {
    if |abc.classes| > 0 && abc.classes[0].cinit < |abc.methods| {
      var keymap := KeymapFrom(abc.strings, abc.methods[abc.classes[0].cinit].code, keymap0);
      if keymap.Some? {
        LenientAgrees(abc, keymap.value, abc.classes[0].itraits, methods0);
      }
    }
  }

  /** A chain spelling `target` at `q` (the first call-unit from `p`) followed by
      a name chain at `q2`: the round records the decoded name, or rejects it
      when it is not UTF-8. */
  lemma MatchedRound(prog: Program, p: nat, methods: map<nat, byte>, target: Str, q: nat, q2: nat, name: Str)
    requires target != [] && p <= |prog| && q == FirstCallUnit(prog, p) && q < |prog|
    requires ChainFrom(prog, q) && AllMapped(methods, ChainIds(prog, q))
    requires |ChainIds(prog, q)| == |target| && SpellsMapped(methods, ChainIds(prog, q), target)
    requires q2 == FirstCallUnit(prog, ChainEnd(prog, q)) && q2 < |prog| && ChainFrom(prog, q2)
    requires name == Decode(ChainIds(prog, q2), methods)
    ensures ValidUtf8(name) ==> OrderRound(prog, p, methods, target) == Return(Recorded(name, ChainEnd(prog, q2)))
    ensures !ValidUtf8(name) ==> OrderRound(prog, p, methods, target) == Return(Rejected)
  {
    MatchOnChain(prog, q, methods, target);
    assert MatchFrom(prog, q, methods, target) == Return(Matched(true, ChainEnd(prog, q)));
    BuildOnChain(prog, q2, methods, ChainIds(prog, q2), ChainEnd(prog, q2));
  }

  /** The loop records the name after a chain spelling `target` and goes on after
      the name chain; a name that is not UTF-8 stops it with an error, keeping
      the names recorded before. */
  lemma OrderMatchedStep(prog: Program, p: nat, methods: map<nat, byte>, target: Str, order: seq<Str>, q: nat, q2: nat, name: Str)
    requires target != [] && p <= |prog| && q == FirstCallUnit(prog, p) && q < |prog|
    requires ChainFrom(prog, q) && AllMapped(methods, ChainIds(prog, q))
    requires |ChainIds(prog, q)| == |target| && SpellsMapped(methods, ChainIds(prog, q), target)
    requires q2 == FirstCallUnit(prog, ChainEnd(prog, q)) && q2 < |prog| && ChainFrom(prog, q2)
    requires name == Decode(ChainIds(prog, q2), methods)
    ensures ValidUtf8(name) ==>
              OrderFrom(prog, p, methods, target, order) == OrderFrom(prog, ChainEnd(prog, q2), methods, target, order + [name])
    ensures !ValidUtf8(name) ==> OrderFrom(prog, p, methods, target, order) == Return(OrderRun(order, Some(BadUtf8)))
  {
    MatchedRound(prog, p, methods, target, q, q2, name);
    if ValidUtf8(name) {
      OrderRecords(prog, p, methods, target, order, name, ChainEnd(prog, q2));
    }
  }

  /** A chain at `q` (the first call-unit from `p`) whose ids are all mapped
      and do not spell `target` is skipped with the order unchanged. Unlike the
      C++ loop, the Rust `skip_string` may stop on a `callproperty` inside the
      chain, so the next round can start within the same chain. */
  lemma OrderMismatchStep(prog: Program, p: nat, methods: map<nat, byte>, target: Str, order: seq<Str>, q: nat)
    requires target != [] && p <= |prog| && q == FirstCallUnit(prog, p) && q < |prog|
    requires ChainFrom(prog, q) && AllMapped(methods, ChainIds(prog, q))
    requires !SpellsMapped(methods, ChainIds(prog, q), target)
    ensures MatchFrom(prog, q, methods, target).Return?
    ensures var e := MatchFrom(prog, q, methods, target).value.pos;
            && q < e <= ChainEnd(prog, q)
            && (e == ChainEnd(prog, q) || prog[e].op.CallProperty?)
            && OrderFrom(prog, p, methods, target, order) == OrderFrom(prog, e, methods, target, order)
  {
    MatchOnChain(prog, q, methods, target);
    var e := MatchFrom(prog, q, methods, target).value.pos;
    OrderSkips(prog, p, methods, target, order, e);
  }

  /** An id the table does not hold at the start of the next chain is fatal: the
      loop panics (the C++ code inserts a '\0' entry instead). */
  lemma OrderPanicsOnUnmapped(prog: Program, p: nat, methods: map<nat, byte>, target: Str, order: seq<Str>, q: nat)
    requires target != [] && p <= |prog| && q == FirstCallUnit(prog, p) && q < |prog|
    requires ChainFrom(prog, q) && ChainIds(prog, q)[0] !in methods
    ensures OrderFrom(prog, p, methods, target, order) == Panic
  {
    MatchPanicsOnUnmapped(prog, q, methods, target);
  }

  /** With no call-unit left the loop stops without an error. */
  lemma OrderStops(prog: Program, p: nat, methods: map<nat, byte>, target: Str, order: seq<Str>)
    requires target != [] && p <= |prog| && FirstCallUnit(prog, p) == |prog|
    ensures OrderFrom(prog, p, methods, target, order) == Return(OrderRun(order, None))
  {
  }

  /** The loop after a round that ends it: a panic, no call-unit left, or a
      name that is not UTF-8. */
  lemma OrderEnds(prog: Program, p: nat, methods: map<nat, byte>, target: Str, order: seq<Str>)
    requires target != [] && p <= |prog|
    ensures OrderRound(prog, p, methods, target).Panic? ==> OrderFrom(prog, p, methods, target, order) == Panic
    ensures OrderRound(prog, p, methods, target) == Return(Stop) ==>
              OrderFrom(prog, p, methods, target, order) == Return(OrderRun(order, None))
    ensures OrderRound(prog, p, methods, target) == Return(Rejected) ==>
              OrderFrom(prog, p, methods, target, order) == Return(OrderRun(order, Some(BadUtf8)))
  {
  }

  /** The loop after a skipped round. */
  lemma OrderSkips(prog: Program, p: nat, methods: map<nat, byte>, target: Str, order: seq<Str>, e: nat)
    requires target != [] && p <= |prog| && OrderRound(prog, p, methods, target) == Return(Skipped(e))
    ensures e <= |prog| && OrderFrom(prog, p, methods, target, order) == OrderFrom(prog, e, methods, target, order)
  {
  }

  /** The loop after a recorded name. */
  lemma OrderRecords(prog: Program, p: nat, methods: map<nat, byte>, target: Str, order: seq<Str>, name: Str, e: nat)
    requires target != [] && p <= |prog| && OrderRound(prog, p, methods, target) == Return(Recorded(name, e))
    ensures e <= |prog| && OrderFrom(prog, p, methods, target, order) == OrderFrom(prog, e, methods, target, order + [name])
  {
  }

  /** Every name the loop records is valid UTF-8. */
  lemma {:induction false} OrderNamesValid(prog: Program, p: nat, methods: map<nat, byte>, target: Str, order: seq<Str>)
    requires target != [] && p <= |prog|
    requires OrderFrom(prog, p, methods, target, order).Return?
    ensures var o := OrderFrom(prog, p, methods, target, order).value.order;
            forall k :: |order| <= k < |o| ==> ValidUtf8(o[k])
    decreases |prog| - p
  {
    var round := OrderRound(prog, p, methods, target);
    match round
    case Return(Skipped(e)) =>
      OrderSkips(prog, p, methods, target, order, e);
      OrderNamesValid(prog, e, methods, target, order);
    case Return(Recorded(name, e)) =>
      var order' := order + [name];
      OrderRecords(prog, p, methods, target, order, name, e);
      OrderNamesValid(prog, e, methods, target, order');
      var rest := OrderFrom(prog, e, methods, target, order');
      assert rest.Return?;
      var o := rest.value.order;
      assert o[..|order'|] == order';
      assert order'[|order|] == name;
      assert o[..|order'|][|order|] == o[|order|];
      assert forall k :: |order| <= k < |o| ==> ValidUtf8(o[k]) by {
        forall k | |order| <= k < |o| ensures ValidUtf8(o[k]) {
          if k == |order| { assert o[k] == name; }
        }
      }
    case _ =>
  }

  /** Without a `constructsuper` the Rust code returns an error, keeping the
      keymap and table it resolved and recording nothing (the C++ code records
      nothing, silently). */
  lemma NoSuperFails(abc: AbcFile, keymap0: Option<Str>, methods0: map<nat, byte>, order0: seq<Str>, lenient: bool)
    requires |abc.classes| > 0 && abc.classes[0].cinit < |abc.methods| && abc.classes[0].iinit < |abc.methods|
    requires var keymap := KeymapFrom(abc.strings, abc.methods[abc.classes[0].cinit].code, keymap0);
             var mr := ResolveMethodsOf(abc, keymap, methods0, lenient);
             mr.Return? && mr.value.failure.None?
    requires var code := abc.methods[abc.classes[0].iinit].code;
             FirstFrom(code, 0, IsConstructSuper) == |code|
    ensures var keymap := KeymapFrom(abc.strings, abc.methods[abc.classes[0].cinit].code, keymap0);
            var mr := ResolveMethodsOf(abc, keymap, methods0, lenient);
            ResolveOrderOf(abc, keymap0, methods0, order0, lenient)
              == Return(Resolution(keymap, mr.value.methods, order0, Some(NoSuper)))
  {
  }

  // ---------------------------------------------------------------------------
  // The loop of `resolve_order`, on a string finder

  /** The second half of `resolve_order`: skip to the `constructsuper` of the
      instance initialiser `code`, then record the name after every call that
      spells `target` (`"writeBytes"`). */
  method SuperOrder(code: Program, methods: map<nat, byte>, target: Str, order: seq<Str>) returns (r: Outcome<OrderRun>)
    requires target != []
    ensures r == SuperOrderFrom(code, methods, target, order)
  {
    var ins := 0;
    while ins < |code| && !code[ins].op.ConstructSuper?
      invariant ins <= |code|
      invariant FirstFrom(code, ins, IsConstructSuper) == FirstFrom(code, 0, IsConstructSuper)
      decreases |code| - ins
    {
      ins := ins + 1;
    }
    if ins == |code| {
      return Return(OrderRun(order, Some(NoSuper)));
    }
    var finder := new StringFinder(code, methods, ins);
    r := OrderLoop(finder, target, order);
  }

  /** The `while finder.next_string()` loop of `resolve_order()`, from the
      names `names0`. */
  method OrderLoop(finder: StringFinder, target: Str, names0: seq<Str>) returns (r: Outcome<OrderRun>)
    requires finder.Valid() && target != []
    modifies finder
    ensures r == OrderFrom(finder.prog, old(finder.cursor), finder.methods, target, names0)
  {
    var names := names0;
    ghost var total := OrderFrom(finder.prog, finder.cursor, finder.methods, target, names);
    while true
      invariant finder.Valid()
      invariant OrderFrom(finder.prog, finder.cursor, finder.methods, target, names) == total
      decreases |finder.prog| - finder.cursor
    {
      ghost var p := finder.cursor;
      var round := OrderStep(finder, target);
      OrderEnds(finder.prog, p, finder.methods, target, names);
      match round
      case Panic =>
        return Panic;
      case Return(Stop) =>
        return Return(OrderRun(names, None));
      case Return(Rejected) =>
        return Return(OrderRun(names, Some(BadUtf8)));
      case Return(Skipped(e)) =>
        OrderSkips(finder.prog, p, finder.methods, target, names, e);
      case Return(Recorded(name, e)) =>
        OrderRecords(finder.prog, p, finder.methods, target, names, name, e);
        names := names + [name];
    }
  }

  /** One iteration of the loop of `resolve_order()`: `next_string()`, then
      `match_target(target)`, and on a match `next_string()` and `build()`. */
  method OrderStep(finder: StringFinder, target: Str) returns (r: Outcome<Round>)
    requires finder.Valid() && target != []
    modifies finder
    ensures finder.Valid()
    ensures r == OrderRound(finder.prog, old(finder.cursor), finder.methods, target)
    ensures r.Return? && (r.value.Skipped? || r.value.Recorded?) ==> finder.cursor == r.value.pos
  {
    var found := finder.NextString();
    if !found {
      return Return(Stop);
    }
    var ok := finder.MatchTarget(target);
    if ok.Panic? {
      return Panic;
    }
    if !ok.value {
      return Return(Skipped(finder.cursor));
    }
    var _ := finder.NextString();
    var name := finder.Build();
    if name.Panic? {
      return Panic;
    }
    if !ValidUtf8(name.value) {
      return Return(Rejected);
    }
    r := Return(Recorded(name.value, finder.cursor));
  }

  /** `movie.symbols`: the SymbolClass table, empty without a SymbolClass tag. */
  function Symbols(movie: Movie): map<nat, Str> {
    if movie.symbolClass.Some? then movie.symbolClass.value else map[]
  }
}
