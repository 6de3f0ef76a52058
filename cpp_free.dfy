/** The free-function variant of the C++ unpacker (src/unpacker.cpp): the same
    steps as the `Unpacker` class, with the tables passed and returned instead
    of held in fields. */
module CppFree {
  import opened Abc
  import opened Chains
  import opened CppFinder
  import opened CppResolve
  import opened Binaries

  /** `match_target(finder, target, methods)`: `methods` is updated in place by
      the C++ code and is returned here. */
  method MatchTarget(finder: StringFinder, target: Str, methods0: map<nat, byte>)
      returns (ok: bool, methods: map<nat, byte>)
    requires finder.Valid() && MatchFrom(finder.prog, finder.ins, methods0, target).Some?
    modifies finder
    ensures finder.Valid()
    ensures MatchFrom(finder.prog, old(finder.ins), methods0, target) == Some(Matched(ok, finder.ins, methods))
  {
    ghost var prog := finder.prog;
    methods := methods0;
    ghost var total := MatchFrom(prog, finder.ins, methods, target).value;
    var chr: nat := 0;
    for i := 0 to |target|
      invariant finder.Valid() && finder.prog == prog
      invariant MatchFrom(prog, finder.ins, methods, target[i..]) == Some(total)
    {
      ghost var p := finder.ins;
      var got;
      got, chr := finder.NextChar(chr);
      if !got {
        finder.SkipString();
        return false, methods;
      }
      MatchCharStep(prog, p, methods, target[i..], chr, finder.ins);
      ghost var grown := methods[chr := Indexed(methods, chr)];
      if chr !in methods {
        methods := methods[chr := 0];
      }
      assert methods == grown;
      if methods[chr] != target[i] {
        finder.SkipString();
        return false, methods;
      }
      assert target[i..][1..] == target[i + 1..];
    }
    return true, methods;
  }

  /** `get_keymap(abc, ins)`: the string of the first `pushstring`, or "" when
      there is none. */
  method GetKeymap(abc: AbcFile, code: Program) returns (keymap: Str)
    requires KeymapFrom(abc.strings, code, []).Some?
    ensures keymap == KeymapFrom(abc.strings, code, []).value
  {
    var ins := 0;
    while ins < |code|
      invariant ins <= |code|
      invariant FirstFrom(code, ins, IsPushString) == FirstFrom(code, 0, IsPushString)
      decreases |code| - ins
    {
      if code[ins].op.PushString? {
        return abc.strings[code[ins].op.index];
      }
      ins := ins + 1;
    }
    return [];
  }

  /** `get_methods(abc, keymap)`: the id-to-character table of the first class,
      built from an empty one. */
  method GetMethods(abc: AbcFile, keymap: Str) returns (methods: map<nat, byte>)
    requires |abc.classes| > 0 && CharMapFrom(abc, keymap, abc.classes[0].itraits, map[]).Some?
    ensures methods == CharMapFrom(abc, keymap, abc.classes[0].itraits, map[]).value
  {
    methods := map[];
    var traits := abc.classes[0].itraits;
    ghost var total := CharMapFrom(abc, keymap, traits, methods).value;
    for i := 0 to |traits|
      invariant CharMapFrom(abc, keymap, traits[i..], methods) == Some(total)
    {
      var t := traits[i];
      assert traits[i..][1..] == traits[i + 1..];
      if t.kind == Method {
        var m := abc.methods[t.index];
        if m.needRest && m.maxStack == 2 {
          var ins := 0;
          while ins < |m.code|
            invariant ins <= |m.code|
            invariant FirstFrom(m.code, ins, IsPushByte) == FirstFrom(m.code, 0, IsPushByte)
            decreases |m.code| - ins
          {
            if m.code[ins].op.PushByte? {
              var b := m.code[ins].op.value;
              methods := methods[t.name := if b < |keymap| then keymap[b] else 0];
              break;
            }
            ins := ins + 1;
          }
        }
      }
    }
  }

  /** The resource-order loop of `resolve_order(abc)` over the instance
      initialiser `code`, after skipping to its `constructsuper`. */
  method FindOrder(code: Program, methods0: map<nat, byte>) returns (order: seq<Str>, methods: map<nat, byte>)
    requires OrderFrom(code, FirstFrom(code, 0, IsConstructSuper), methods0, []).Some?
    ensures OrderFrom(code, FirstFrom(code, 0, IsConstructSuper), methods0, []) == Some(OrderRun(order, methods))
  {
    var ins := 0;
    while ins < |code| && !code[ins].op.ConstructSuper?
      invariant ins <= |code|
      invariant FirstFrom(code, ins, IsConstructSuper) == FirstFrom(code, 0, IsConstructSuper)
      decreases |code| - ins
    {
      ins := ins + 1;
    }
    order, methods := [], methods0;
    var finder := new StringFinder(code, ins);
    ghost var total := OrderFrom(code, ins, methods, order).value;
    while true
      invariant finder.Valid() && finder.prog == code
      invariant OrderFrom(code, finder.ins, methods, order) == Some(total)
      decreases |code| - finder.ins
    {
      var found := finder.NextString();
      if !found {
        break;
      }
      var ok;
      ok, methods := MatchTarget(finder, WriteBytes, methods);
      if ok {
        var _ := finder.NextString();
        var name := finder.Build(methods);
        order := order + [name];
      }
    }
  }

  /** `resolve_order(abc)`: keymap from the class initialiser, table from the
      instance traits, resource order from the instance initialiser. */
  method ResolveOrder(abc: AbcFile) returns (order: seq<Str>)
    requires ResolveOrderOf(abc, [], map[], []).Some?
    ensures order == ResolveOrderOf(abc, [], map[], []).value.order
  {
    var cls := abc.classes[0];
    var keymap := GetKeymap(abc, abc.methods[cls.cinit].code);
    var methods := GetMethods(abc, keymap);
    order, methods := FindOrder(abc.methods[cls.iinit].code, methods);
  }

  /** `get_binaries(movie)`: the payload table keyed by symbol name minus its
      prefix. The C++ code dereferences the SymbolClass tag unconditionally. */
  method GetBinaries(movie: Movie) returns (binaries: map<Str, seq<byte>>)
    requires movie.symbolClass.Some?
    ensures binaries == TableFrom(movie.binaries, movie.symbolClass.value, CppKey, map[])
  {
    var symbols := movie.symbolClass.value;
    var tags := movie.binaries;
    binaries := map[];
    ghost var total := TableFrom(tags, symbols, CppKey, binaries);
    for i := 0 to |tags|
      invariant TableFrom(tags[i..], symbols, CppKey, binaries) == total
    {
      var tag := tags[i];
      assert tags[i..][1..] == tags[i + 1..];
      if tag.charId in symbols {
        var symbol := CppSymbolKey(symbols[tag.charId]);
        binaries := binaries[symbol := tag.data];
      }
    }
  }
}
