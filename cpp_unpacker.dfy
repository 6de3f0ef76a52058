/** The C++ `Unpacker` class (lib/unpacker.cpp): its member functions update
    the fields `abc`, `keymap`, `methods`, `order` and `binaries`. Each method
    requires that the C++ code has defined behaviour on the input (the
    corresponding specification function is `Some`) and is proved to compute
    it. */
module CppUnpacker {
  import opened Abc
  import opened Chains
  import opened CppFinder
  import opened CppResolve
  import opened Binaries

  class Unpacker {
    const movie: Movie
    var abc: Option<AbcFile>
    var keymap: Str
    var methods: map<nat, byte>
    var order: seq<Str>
    var binaries: map<Str, seq<byte>>

    /** The unpacker of a movie already read; every table starts empty. */
    constructor (movie: Movie)
      ensures this.movie == movie && abc == None && keymap == [] && methods == map[]
      ensures order == [] && binaries == map[]
    {
      this.movie := movie;
      abc := None;
      keymap := [];
      methods := map[];
      order := [];
      binaries := map[];
    }

    /** `resolve_keymap(ins)`: the constant-pool string of the first `pushstring`. */
    method ResolveKeymap(code: Program)
      requires abc.Some? && KeymapFrom(abc.value.strings, code, keymap).Some?
      modifies this
      ensures keymap == KeymapFrom(old(abc).value.strings, code, old(keymap)).value
      ensures abc == old(abc) && methods == old(methods) && order == old(order) && binaries == old(binaries)
    {
      var ins := 0;
      while ins < |code|
        invariant ins <= |code|
        invariant FirstFrom(code, ins, IsPushString) == FirstFrom(code, 0, IsPushString)
        decreases |code| - ins
      {
        if code[ins].op.PushString? {
          keymap := abc.value.strings[code[ins].op.index];
          return;
        }
        ins := ins + 1;
      }
    }

    /** `resolve_methods()`: one entry per accessor trait of the first class. */
    method ResolveMethods()
      requires abc.Some? && |abc.value.classes| > 0
      requires CharMapFrom(abc.value, keymap, abc.value.classes[0].itraits, methods).Some?
      modifies this
      ensures methods == CharMapFrom(old(abc).value, old(keymap), old(abc).value.classes[0].itraits, old(methods)).value
      ensures abc == old(abc) && keymap == old(keymap) && order == old(order) && binaries == old(binaries)
    {
      var a := abc.value;
      var traits := a.classes[0].itraits;
      ghost var total := CharMapFrom(a, keymap, traits, methods).value;
      for i := 0 to |traits|
        invariant CharMapFrom(a, keymap, traits[i..], methods) == Some(total)
        invariant abc == old(abc) && keymap == old(keymap) && order == old(order) && binaries == old(binaries)
      {
        var t := traits[i];
        assert traits[i..][1..] == traits[i + 1..];
        if t.kind == Method {
          var m := a.methods[t.index];
          if m.needRest && m.maxStack == 2 {
            var ins := 0;
            while ins < |m.code|
              invariant ins <= |m.code|
              invariant FirstFrom(m.code, ins, IsPushByte) == FirstFrom(m.code, 0, IsPushByte)
              decreases |m.code| - ins
            {
              if m.code[ins].op.PushByte? {
                var b := m.code[ins].op.value;
                methods := methods[t.name := if b < |keymap| then keymap[b] else 0];
                break;
              }
              ins := ins + 1;
            }
          }
        }
      }
    }

    /** `match_target(finder, target)`: `methods[chr]` inserts a '\0' entry for
        an id the table does not hold. */
    method MatchTarget(finder: StringFinder, target: Str) returns (ok: bool)
      requires finder.Valid() && MatchFrom(finder.prog, finder.ins, methods, target).Some?
      modifies this, finder
      ensures finder.Valid()
      ensures MatchFrom(finder.prog, old(finder.ins), old(methods), target) == Some(Matched(ok, finder.ins, methods))
      ensures abc == old(abc) && keymap == old(keymap) && order == old(order) && binaries == old(binaries)
    {
      ghost var prog := finder.prog;
      var m: map<nat, byte> := methods;
      ghost var total := MatchFrom(prog, finder.ins, m, target).value;
      var chr: nat := 0;
      ok := true;
      for i := 0 to |target|
        invariant finder.Valid() && finder.prog == prog
        invariant MatchFrom(prog, finder.ins, m, target[i..]) == Some(total)
        modifies finder
      {
        ghost var p := finder.ins;
        var got;
        got, chr := finder.NextChar(chr);
        if !got {
          finder.SkipString();
          ok := false;
          break;
        }
        MatchCharStep(prog, p, m, target[i..], chr, finder.ins);
        ghost var grown := m[chr := Indexed(m, chr)];
        if chr !in m {
          m := m[chr := 0];
        }
        assert m == grown;
        if m[chr] != target[i] {
          finder.SkipString();
          ok := false;
          break;
        }
        assert target[i..][1..] == target[i + 1..];
      }
      methods := m;
    }

    /** `resolve_order()`: nothing without `frame1`; otherwise keymap, table and
        resource order from the first class of `frame1`. */
    method ResolveOrder()
      requires movie.frame1.Some? ==> ResolveOrderOf(movie.frame1.value, keymap, methods, order).Some?
      modifies this
      ensures movie.frame1.None? ==>
                abc == old(abc) && keymap == old(keymap) && methods == old(methods) && order == old(order)
      ensures movie.frame1.Some? ==>
                var r := ResolveOrderOf(movie.frame1.value, old(keymap), old(methods), old(order)).value;
                abc == movie.frame1 && keymap == r.keymap && methods == r.methods && order == r.order
      ensures binaries == old(binaries)
    {
      if movie.frame1.None? {
        return;
      }
      abc := movie.frame1;
      var a := abc.value;
      var cls := a.classes[0];
      ResolveKeymap(a.methods[cls.cinit].code);
      assert keymap == KeymapFrom(a.strings, a.methods[cls.cinit].code, old(keymap)).value;
      ResolveMethods();
      assert methods == CharMapFrom(a, keymap, cls.itraits, old(methods)).value;
      FindOrder(a.methods[cls.iinit].code);
    }

    /** The second half of `resolve_order()`: skip to the `constructsuper` of the
        instance initialiser `code`, then record the name after every call that
        spells "writeBytes". */
    method FindOrder(code: Program)
      requires OrderFrom(code, FirstFrom(code, 0, IsConstructSuper), methods, order).Some?
      modifies this
      ensures var run := OrderFrom(code, FirstFrom(code, 0, IsConstructSuper), old(methods), old(order)).value;
              order == run.order && methods == run.methods
      ensures abc == old(abc) && keymap == old(keymap) && binaries == old(binaries)
    {
      var ins := 0;
      while ins < |code| && !code[ins].op.ConstructSuper?
        invariant ins <= |code|
        invariant FirstFrom(code, ins, IsConstructSuper) == FirstFrom(code, 0, IsConstructSuper)
        decreases |code| - ins
      {
        ins := ins + 1;
      }
      var finder := new StringFinder(code, ins);
      ghost var total := OrderFrom(code, ins, methods, order).value;
      while true
        invariant finder.Valid() && finder.prog == code
        invariant OrderFrom(code, finder.ins, methods, order) == Some(total)
        invariant abc == old(abc) && keymap == old(keymap) && binaries == old(binaries)
        decreases |code| - finder.ins
      {
        var found := finder.NextString();
        if !found {
          break;
        }
        var ok := MatchTarget(finder, WriteBytes);
        if ok {
          var _ := finder.NextString();
          var name := finder.Build(methods);
          order := order + [name];
        }
      }
    }

    /** `resolve_binaries()`: nothing without a SymbolClass table; otherwise every
        binary tag with a symbol, filed under its name minus the prefix. */
    method ResolveBinaries()
      modifies this
      ensures movie.symbolClass.None? ==> binaries == old(binaries)
      ensures movie.symbolClass.Some? ==>
                binaries == TableFrom(movie.binaries, movie.symbolClass.value, CppKey, old(binaries))
      ensures abc == old(abc) && keymap == old(keymap) && methods == old(methods) && order == old(order)
    {
      if movie.symbolClass.None? {
        return;
      }
      var symbols := movie.symbolClass.value;
      var tags := movie.binaries;
      ghost var total := TableFrom(tags, symbols, CppKey, binaries);
      for i := 0 to |tags|
        invariant TableFrom(tags[i..], symbols, CppKey, binaries) == total
        invariant abc == old(abc) && keymap == old(keymap) && methods == old(methods) && order == old(order)
      {
        var tag := tags[i];
        assert tags[i..][1..] == tags[i + 1..];
        if tag.charId in symbols {
          var symbol := CppSymbolKey(symbols[tag.charId]);
          binaries := binaries[symbol := tag.data];
        }
      }
    }

    /** `write_binaries(stream)`: the payloads of `order` are appended to the
        stream until a name is missing, which is returned. */
    method WriteBinaries() returns (missing: Option<Str>, written: seq<byte>)
      ensures missing == MissingName(order, binaries)
      ensures written == Written(order, binaries)
    {
      written := [];
      for i := 0 to |order|
        invariant i <= FirstMissing(order, binaries)
        invariant written == Payloads(order, binaries, i)
      {
        if order[i] !in binaries {
          return Some(order[i]), written;
        }
        written := written + binaries[order[i]];
      }
      missing := None;
    }
  }
}
