/** What the C++ unpacker computes from the `frame1` ABC file. lib/unpacker.cpp
    (the `Unpacker` member functions) and src/unpacker.cpp (the free functions)
    share these definitions: the keymap, the id-to-character table and the
    resource order. `None` marks undefined behaviour: an unchecked vector index
    or a `std::string` index past the terminating '\0', or a finder that
    dereferences the null instruction. */
module CppResolve {
  import opened Abc
  import opened Chains
  import opened CppFinder

  /** `keymap = abc->cpool.strings[ins->args[0]]` at the first `pushstring` of
      `code`; with no `pushstring` the keymap stays `keymap0`. */
  function KeymapFrom(strings: seq<Str>, code: Program, keymap0: Str): (r: Option<Str>)
    ensures FirstFrom(code, 0, IsPushString) == |code| ==> r == Some(keymap0)
    ensures r.Some? && FirstFrom(code, 0, IsPushString) < |code| ==>
              exists i :: && 0 <= i < |code| && code[i].op.PushString?
                          && (forall k :: 0 <= k < i ==> !code[k].op.PushString?)
                          && code[i].op.index < |strings| && r.value == strings[code[i].op.index]
  {
    var i := FirstFrom(code, 0, IsPushString);
    if i == |code| then Some(keymap0)
    else if code[i].op.index < |strings| then Some(strings[code[i].op.index])
    else None
  }

  /** What one trait contributes to the table. */
  datatype Entry = NoEntry | Entry(chr: byte)

  /** `keymap[b]` on a `std::string`: index `|keymap|` reads the terminating '\0',
      anything beyond is undefined. */
  function KeymapChar(keymap: Str, b: nat): (r: Option<Entry>)
    ensures r.Some? <==> b <= |keymap|
    ensures b < |keymap| ==> r == Some(Entry(keymap[b]))
    ensures b == |keymap| ==> r == Some(Entry(0))
  {
    if b < |keymap| then Some(Entry(keymap[b]))
    else if b == |keymap| then Some(Entry(0))
    else None
  }

  /** One iteration of the `itraits` loop of `resolve_methods`/`get_methods`:
      a Method trait whose method takes `...rest` and has `max_stack == 2`
      maps its name to the keymap character its first `pushbyte` selects. */
  function TraitEntry(abc: AbcFile, keymap: Str, t: Trait): Option<Entry>
  {
    if t.kind != Method then Some(NoEntry)
    else if t.index >= |abc.methods| then None
    else
      var m := abc.methods[t.index];
      if !IsAccessor(m) then Some(NoEntry)
      else
        var i := FirstFrom(m.code, 0, IsPushByte);
        if i == |m.code| then Some(NoEntry)
        else KeymapChar(keymap, m.code[i].op.value)
  }

  /** What one trait does: nothing unless it is a method trait; undefined for a
      method index outside the method list; otherwise an entry only for an
      accessor with a `pushbyte`, read from the keymap at its operand. */
  lemma TraitEntryReads(abc: AbcFile, keymap: Str, t: Trait)
    ensures t.kind != Method ==> TraitEntry(abc, keymap, t) == Some(NoEntry)
    ensures t.kind == Method && t.index >= |abc.methods| ==> TraitEntry(abc, keymap, t).None?
    ensures var r := TraitEntry(abc, keymap, t);
            r.Some? && r.value.Entry? ==>
              && t.kind == Method && t.index < |abc.methods| && IsAccessor(abc.methods[t.index])
              && var code := abc.methods[t.index].code;
                 var i := FirstFrom(code, 0, IsPushByte);
                 && i < |code| && code[i].op.value <= |keymap|
                 && r.value.chr == (if code[i].op.value < |keymap| then keymap[code[i].op.value] else 0)
  {
  }

  /** The table after the `itraits` loop, starting from `acc`. */
  function CharMapFrom(abc: AbcFile, keymap: Str, traits: seq<Trait>, acc: map<nat, byte>): (r: Option<map<nat, byte>>)
    ensures r.Some? ==> acc.Keys <= r.value.Keys
    decreases |traits|
  {
    if traits == [] then Some(acc)
    else
      match TraitEntry(abc, keymap, traits[0])
      case None => None
      case Some(NoEntry) => CharMapFrom(abc, keymap, traits[1..], acc)
      case Some(Entry(c)) => CharMapFrom(abc, keymap, traits[1..], acc[traits[0].name := c])
  }

  /** Trait `t` writes an entry for `name`. */
  predicate Writes(abc: AbcFile, keymap: Str, t: Trait, name: nat) {
    t.name == name && TraitEntry(abc, keymap, t).Some? && TraitEntry(abc, keymap, t).value.Entry?
  }

  /** The loop is defined exactly when every trait's lookups are. */
  lemma {:induction false} CharMapDefined(abc: AbcFile, keymap: Str, traits: seq<Trait>, acc: map<nat, byte>)
    ensures CharMapFrom(abc, keymap, traits, acc).Some? <==>
              forall i :: 0 <= i < |traits| ==> TraitEntry(abc, keymap, traits[i]).Some?
    decreases |traits|
  {
    if traits != [] {
      var next := match TraitEntry(abc, keymap, traits[0])
                  case Some(Entry(c)) => acc[traits[0].name := c]
                  case _ => acc;
      CharMapDefined(abc, keymap, traits[1..], next);
      assert forall i :: 0 <= i < |traits[1..]| ==> traits[1..][i] == traits[i + 1];
    }
  }

  /** With no trait writing `name`, the loop leaves `name` as `acc` had it. */
  lemma {:induction false} CharMapUntouched(abc: AbcFile, keymap: Str, traits: seq<Trait>,
                                            acc: map<nat, byte>, name: nat)
    requires CharMapFrom(abc, keymap, traits, acc).Some?
    requires forall i :: 0 <= i < |traits| ==> !Writes(abc, keymap, traits[i], name)
    ensures var r := CharMapFrom(abc, keymap, traits, acc).value;
            (name in r <==> name in acc) && (name in acc ==> r[name] == acc[name])
    decreases |traits|
  {
    if traits != [] {
      var t := traits[0];
      var next := match TraitEntry(abc, keymap, t)
                  case Some(Entry(c)) => acc[t.name := c]
                  case _ => acc;
      assert CharMapFrom(abc, keymap, traits, acc) == CharMapFrom(abc, keymap, traits[1..], next);
      assert !Writes(abc, keymap, traits[0], name);
      assert forall i :: 0 <= i < |traits[1..]| ==> traits[1..][i] == traits[i + 1];
      CharMapUntouched(abc, keymap, traits[1..], next, name);
    }
  }

  /** The last trait writing `name` decides its entry. */
  lemma {:induction false} CharMapWriterAt(abc: AbcFile, keymap: Str, traits: seq<Trait>,
                                           acc: map<nat, byte>, name: nat, i: nat)
    requires CharMapFrom(abc, keymap, traits, acc).Some?
    requires i < |traits| && Writes(abc, keymap, traits[i], name)
    requires forall j :: i < j < |traits| ==> !Writes(abc, keymap, traits[j], name)
    ensures var r := CharMapFrom(abc, keymap, traits, acc).value;
            name in r && r[name] == TraitEntry(abc, keymap, traits[i]).value.chr
    decreases |traits|
  {
    var t := traits[0];
    var next := match TraitEntry(abc, keymap, t)
                case Some(Entry(c)) => acc[t.name := c]
                case _ => acc;
    assert CharMapFrom(abc, keymap, traits, acc) == CharMapFrom(abc, keymap, traits[1..], next);
    if i == 0 {
      assert name in next && next[name] == TraitEntry(abc, keymap, t).value.chr;
      forall j | 0 <= j < |traits[1..]| ensures !Writes(abc, keymap, traits[1..][j], name) {
        assert traits[1..][j] == traits[j + 1];
      }
      CharMapUntouched(abc, keymap, traits[1..], next, name);
    } else {
      assert traits[1..][i - 1] == traits[i];
      forall j | i - 1 < j < |traits[1..]| ensures !Writes(abc, keymap, traits[1..][j], name) {
        assert traits[1..][j] == traits[j + 1];
      }
      CharMapWriterAt(abc, keymap, traits[1..], next, name, i - 1);
    }
  }

  /** Only qualifying traits add entries, and the last one written for a name
      wins; a name no trait writes keeps its old entry or its absence. */
  lemma CharMapLastWriter(abc: AbcFile, keymap: Str, traits: seq<Trait>,
                          acc: map<nat, byte>, name: nat)
    requires CharMapFrom(abc, keymap, traits, acc).Some?
    ensures var r := CharMapFrom(abc, keymap, traits, acc).value;
            && ((forall i :: 0 <= i < |traits| ==> !Writes(abc, keymap, traits[i], name)) ==>
                  (name in r <==> name in acc) && (name in acc ==> r[name] == acc[name]))
            && (forall i :: (0 <= i < |traits| && Writes(abc, keymap, traits[i], name)
                               && (forall j :: i < j < |traits| ==> !Writes(abc, keymap, traits[j], name)))
                             ==> name in r && r[name] == TraitEntry(abc, keymap, traits[i]).value.chr)
  {
    if forall i :: 0 <= i < |traits| ==> !Writes(abc, keymap, traits[i], name) {
      CharMapUntouched(abc, keymap, traits, acc, name);
    }
    forall i | 0 <= i < |traits| && Writes(abc, keymap, traits[i], name)
        && (forall j :: i < j < |traits| ==> !Writes(abc, keymap, traits[j], name))
      ensures name in CharMapFrom(abc, keymap, traits, acc).value
      ensures CharMapFrom(abc, keymap, traits, acc).value[name] == TraitEntry(abc, keymap, traits[i]).value.chr
    {
      CharMapWriterAt(abc, keymap, traits, acc, name, i);
    }
  }

  /** What one iteration of the resource-order loop does. */
  datatype Round =
    | Stop                                               // `next_string()` was false
    | Skipped(pos: nat, methods: map<nat, byte>)         // the chain was not "writeBytes"
    | Recorded(name: Str, pos: nat, methods: map<nat, byte>)

  /** One iteration of `while (finder.next_string()) { if (match_target(...))
      { finder.next_string(); order.push_back(finder.build(methods)); } }` from `p`. */
  function OrderRound(prog: Program, p: nat, methods: map<nat, byte>): (r: Option<Round>)
    requires p <= |prog|
    ensures r.Some? && !r.value.Stop? ==> p < r.value.pos <= |prog|
    ensures r.Some? && !r.value.Stop? ==> methods.Keys <= r.value.methods.Keys
  {
    match NextStringFrom(prog, p)
    case None => None
    case Some(Found(found, q)) =>
      if !found then Some(Stop)
      else
        match MatchFrom(prog, q, methods, WriteBytes)
        case None => None
        case Some(Matched(ok, e, grown)) =>
          if !ok then Some(Skipped(e, grown))
          else
            match NextStringFrom(prog, e)
            case None => None
            case Some(f) =>
              match BuildFrom(prog, f.pos, grown)
              case None => None
              case Some(b) => Some(Recorded(b.text, b.pos, grown))
  }

  /** State threaded through the order loop. */
  datatype OrderRun = OrderRun(order: seq<Str>, methods: map<nat, byte>)

  /** The resource-order loop from `p`, with `order` the names recorded so far. */
  function OrderFrom(prog: Program, p: nat, methods: map<nat, byte>, order: seq<Str>): (r: Option<OrderRun>)
    requires p <= |prog|
    ensures r.Some? ==> |order| <= |r.value.order| && r.value.order[..|order|] == order
    ensures r.Some? ==> methods.Keys <= r.value.methods.Keys
    decreases |prog| - p
  {
    match OrderRound(prog, p, methods)
    case None => None
    case Some(Stop) => Some(OrderRun(order, methods))
    case Some(Skipped(e, grown)) => OrderFrom(prog, e, grown, order)
    case Some(Recorded(name, e, grown)) =>
      var r := OrderFrom(prog, e, grown, order + [name]);
      if r.Some? then PrefixOfPrefix(r.value.order, order + [name], order); r else r
  }

  /** One round on a `"writeBytes"` chain at `q` (the first call-unit from
      `p`) whose name chain is at `q2` (the first call-unit after it). */
  lemma MatchedRound(prog: Program, p: nat, methods: map<nat, byte>, q: nat, q2: nat)
    requires p <= |prog| && q == FirstCallUnit(prog, p) && q < |prog|
    requires ChainFrom(prog, q) && AllMapped(methods, ChainIds(prog, q))
    requires |ChainIds(prog, q)| == |WriteBytes| && Spells(methods, ChainIds(prog, q), WriteBytes)
    requires q2 == FirstCallUnit(prog, ChainEnd(prog, q)) && q2 < |prog| && ChainFrom(prog, q2)
    ensures OrderRound(prog, p, methods)
              == Some(Recorded(Decode(ChainIds(prog, q2), methods), ChainEnd(prog, q2), methods))
  {
    var e := ChainEnd(prog, q);
    NextStringFindsFirst(prog, p);
    assert NextStringFrom(prog, p) == Some(Found(true, q));
    MatchOnChain(prog, q, methods, WriteBytes);
    MatchKeepsMappedTable(prog, q, methods, WriteBytes);
    assert MatchFrom(prog, q, methods, WriteBytes) == Some(Matched(true, e, methods));
    NextStringFindsFirst(prog, e);
    assert NextStringFrom(prog, e) == Some(Found(true, q2));
    BuildOnChain(prog, q2, methods, ChainIds(prog, q2), ChainEnd(prog, q2));
  }

  /** A `"writeBytes"` chain followed by a name chain: the loop records the name,
      decoded through the table, and goes on after the name chain. */
  lemma OrderMatchedStep(prog: Program, p: nat, methods: map<nat, byte>, order: seq<Str>, q: nat, q2: nat)
    requires p <= |prog| && q == FirstCallUnit(prog, p) && q < |prog|
    requires ChainFrom(prog, q) && AllMapped(methods, ChainIds(prog, q))
    requires |ChainIds(prog, q)| == |WriteBytes| && Spells(methods, ChainIds(prog, q), WriteBytes)
    requires q2 == FirstCallUnit(prog, ChainEnd(prog, q)) && q2 < |prog| && ChainFrom(prog, q2)
    ensures OrderFrom(prog, p, methods, order)
              == OrderFrom(prog, ChainEnd(prog, q2), methods, order + [Decode(ChainIds(prog, q2), methods)])
  {
    MatchedRound(prog, p, methods, q, q2);
  }

  /** One round on a chain at `q` that does not spell `"writeBytes"`. */
  lemma SkippedRound(prog: Program, p: nat, methods: map<nat, byte>, q: nat)
    requires p <= |prog| && q == FirstCallUnit(prog, p) && q < |prog|
    requires ChainFrom(prog, q) && AllMapped(methods, ChainIds(prog, q))
    requires !Spells(methods, ChainIds(prog, q), WriteBytes)
    ensures OrderRound(prog, p, methods) == Some(Skipped(ChainEnd(prog, q), methods))
  {
    NextStringFindsFirst(prog, p);
    assert NextStringFrom(prog, p) == Some(Found(true, q));
    MatchOnChain(prog, q, methods, WriteBytes);
    MatchKeepsMappedTable(prog, q, methods, WriteBytes);
    assert MatchFrom(prog, q, methods, WriteBytes) == Some(Matched(false, ChainEnd(prog, q), methods));
  }

  /** A chain that does not spell `"writeBytes"` is skipped whole and records
      nothing. */
  lemma OrderMismatchStep(prog: Program, p: nat, methods: map<nat, byte>, order: seq<Str>, q: nat)
    requires p <= |prog| && q == FirstCallUnit(prog, p) && q < |prog|
    requires ChainFrom(prog, q) && AllMapped(methods, ChainIds(prog, q))
    requires !Spells(methods, ChainIds(prog, q), WriteBytes)
    ensures OrderFrom(prog, p, methods, order) == OrderFrom(prog, ChainEnd(prog, q), methods, order)
  {
    SkippedRound(prog, p, methods, q);
  }

  /** With no call-unit left the loop stops. */
  lemma OrderStops(prog: Program, p: nat, methods: map<nat, byte>, order: seq<Str>)
    requires p <= |prog| && FirstCallUnit(prog, p) == |prog|
    requires p == |prog| || !prog[|prog| - 1].op.GetLocal0?
    ensures OrderFrom(prog, p, methods, order) == Some(OrderRun(order, methods))
  {
    NextStringFindsFirst(prog, p);
  }

  /** What `resolve_order` leaves behind. */
  datatype Resolution = Resolution(keymap: Str, methods: map<nat, byte>, order: seq<Str>)

  /** `resolve_order` on `abc` (after `has_frame1`), from the unpacker's
      `keymap0`, `methods0` and `order0`: keymap from the class initialiser,
      table from the instance traits, order from the instance initialiser after
      its `constructsuper`. */
  function ResolveOrderOf(abc: AbcFile, keymap0: Str, methods0: map<nat, byte>, order0: seq<Str>): (r: Option<Resolution>)
    ensures r.Some? ==> |abc.classes| > 0 && abc.classes[0].cinit < |abc.methods| && abc.classes[0].iinit < |abc.methods|
    ensures r.Some? ==> |order0| <= |r.value.order| && r.value.order[..|order0|] == order0
    ensures r.Some? ==> methods0.Keys <= r.value.methods.Keys
  {
    if |abc.classes| == 0 || abc.classes[0].cinit >= |abc.methods| then None
    else
      var cls := abc.classes[0];
      match KeymapFrom(abc.strings, abc.methods[cls.cinit].code, keymap0)
      case None => None
      case Some(keymap) =>
        match CharMapFrom(abc, keymap, cls.itraits, methods0)
        case None => None
        case Some(methods) =>
          if cls.iinit >= |abc.methods| then None
          else
            var code := abc.methods[cls.iinit].code;
            match OrderFrom(code, FirstFrom(code, 0, IsConstructSuper), methods, order0)
            case None => None
            case Some(run) => Some(Resolution(keymap, run.methods, run.order))
  }

  /** Without a `constructsuper` in the instance initialiser the C++ code records
      no resource, silently (the Rust code reports an error instead). */
  lemma NoSuperNoOrder(abc: AbcFile, keymap0: Str, methods0: map<nat, byte>, order0: seq<Str>)
    requires ResolveOrderOf(abc, keymap0, methods0, order0).Some?
    requires var code := abc.methods[abc.classes[0].iinit].code;
             FirstFrom(code, 0, IsConstructSuper) == |code|
    ensures ResolveOrderOf(abc, keymap0, methods0, order0).value.order == order0
  {
  }
}
