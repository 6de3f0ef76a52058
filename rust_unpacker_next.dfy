/** The `Unpacker` struct of the newer Rust crate (unpacker/src/unpacker.rs),
    with the error types of src/error.rs. It differs from the older crate in
    its errors and in `resolve_methods`, which skips a trait whose method index
    is outside the method table (`lenient` true). A method returns
    `Outcome<Status<UnpackerError>>`: `Panic`, or the `Ok`/`Err` the Rust code
    returns. */
module RustUnpackerNext {
  import opened Abc
  import opened Chains
  import opened Utf8
  import opened RustFinder
  import opened RustResolve
  import opened Binaries

  /** `MissingError`: something the unpacker needs is not in the movie. */
  datatype MissingError = MissingFrame1 | MissingKeymap | MissingSuper

  /** `UnpackerError`, without `IoError`. */
  datatype UnpackerError =
    | RabcError               // from `get_class` and `get_method`
    | Utf8Error               // from `String::from_utf8`
    | KeymapIndexError(b: byte)
    | Missing(what: MissingError)

  /** The error each failure is returned as. */
  function ErrorOf(f: Failure): UnpackerError {
    match f
    case NoClass => RabcError
    case NoMethod => RabcError
    case NoKeymap => Missing(MissingKeymap)
    case KeymapIndex(b) => KeymapIndexError(b)
    case NoSuper => Missing(MissingSuper)
    case BadUtf8 => Utf8Error
  }

  /** What a method returns for the failure that stopped it, if any. */
  function StatusOf(f: Option<Failure>): Status<UnpackerError> {
    if f.None? then Ok else Err(ErrorOf(f.value))
  }

  /** This crate skips a trait whose method index is outside the method table. */
  const Lenient := true

  class Unpacker {
    const movie: Movie
    const abc: AbcFile
    var keymap: Option<Str>
    var methods: map<nat, byte>
    var order: seq<Str>
    var binaries: map<Str, seq<byte>>

    /** The unpacker of a movie with a `frame1`; every table starts empty. */
    constructor (movie: Movie)
      requires movie.frame1.Some?
      ensures this.movie == movie && abc == movie.frame1.value
      ensures keymap == None && methods == map[] && order == [] && binaries == map[]
    {
      this.movie := movie;
      abc := movie.frame1.value;
      keymap := None;
      methods := map[];
      order := [];
      binaries := map[];
    }

    /** `Unpacker::new(movie)`: an error when the movie has no `frame1`. */
    static method New(movie: Movie) returns (u: Unpacker?, err: Option<UnpackerError>)
      ensures movie.frame1.None? ==> u == null && err == Some(Missing(MissingFrame1))
      ensures movie.frame1.Some? ==>
                && err == None && u != null && fresh(u)
                && u.movie == movie && u.abc == movie.frame1.value
                && u.keymap == None && u.methods == map[] && u.order == [] && u.binaries == map[]
    {
      if movie.frame1.None? {
        return null, Some(Missing(MissingFrame1));
      }
      u := new Unpacker(movie);
      err := None;
    }

    /** `resolve_keymap(instructions)`: the pool string of the first `PushString`,
        or `None` when its index is outside the pool. */
    method ResolveKeymap(code: Program)
      modifies this
      ensures keymap == KeymapFrom(abc.strings, code, old(keymap))
      ensures methods == old(methods) && order == old(order) && binaries == old(binaries)
    {
      var ins := 0;
      while ins < |code|
        invariant ins <= |code|
        invariant FirstFrom(code, ins, IsPushString) == FirstFrom(code, 0, IsPushString)
        invariant keymap == old(keymap)
        decreases |code| - ins
      {
        if code[ins].op.PushString? {
          var index := code[ins].op.index;
          keymap := if index < |abc.strings| then Some(abc.strings[index]) else None;
          return;
        }
        ins := ins + 1;
      }
    }

    /** `resolve_methods()`: one entry per accessor trait of the first class;
        the entries inserted before an error stay. */
    method ResolveMethods() returns (r: Outcome<Status<UnpackerError>>)
      modifies this
      ensures ResolveMethodsOf(abc, old(keymap), old(methods), Lenient).Panic? <==> r.Panic?
      ensures r.Return? ==>
                var run := ResolveMethodsOf(abc, old(keymap), old(methods), Lenient).value;
                methods == run.methods && r.value == StatusOf(run.failure)
      ensures keymap == old(keymap) && order == old(order) && binaries == old(binaries)
    {
      if keymap.None? {
        return Return(Err(Missing(MissingKeymap)));
      }
      var km := keymap.value;
      if |abc.classes| == 0 {
        return Panic;
      }
      var traits := abc.classes[0].itraits;
      ghost var total := CharMapFrom(abc, km, traits, methods, Lenient);
      for i := 0 to |traits|
        invariant CharMapFrom(abc, km, traits[i..], methods, Lenient) == total
        invariant keymap == old(keymap) && order == old(order) && binaries == old(binaries)
      {
        var t := traits[i];
        assert traits[i..][1..] == traits[i + 1..];
        if t.kind == Method {
          if t.index >= |abc.methods| {
            continue;
          }
          var m := abc.methods[t.index];
          if m.needRest && m.maxStack == 2 {
            var ins := 0;
            while ins < |m.code|
              invariant ins <= |m.code|
              invariant FirstFrom(m.code, ins, IsPushByte) == FirstFrom(m.code, 0, IsPushByte)
              decreases |m.code| - ins
            {
              if m.code[ins].op.PushByte? {
                var b := m.code[ins].op.value;
                if b >= |km| {
                  return Return(Err(KeymapIndexError(b)));
                }
                methods := methods[t.name := km[b]];
                break;
              }
              ins := ins + 1;
            }
          }
        }
      }
      r := Return(Ok);
    }

    /** `resolve_order()`: keymap and table from the class initialiser of the
        first class, then the resource order from its instance initialiser. */
    method ResolveOrder() returns (r: Outcome<Status<UnpackerError>>)
      modifies this
      ensures ResolveOrderOf(abc, old(keymap), old(methods), old(order), Lenient).Panic? <==> r.Panic?
      ensures r.Return? ==>
                var res := ResolveOrderOf(abc, old(keymap), old(methods), old(order), Lenient).value;
                && keymap == res.keymap && methods == res.methods && order == res.order
                && r.value == StatusOf(res.failure)
      ensures binaries == old(binaries)
    {
      if |abc.classes| == 0 {
        return Return(Err(RabcError));
      }
      var cls := abc.classes[0];
      if cls.cinit >= |abc.methods| {
        return Return(Err(RabcError));
      }
      ResolveKeymap(abc.methods[cls.cinit].code);
      r := ResolveMethods();
      if r.Panic? || r.value.Err? {
        return;
      }
      if cls.iinit >= |abc.methods| {
        return Return(Err(RabcError));
      }
      var run := SuperOrder(abc.methods[cls.iinit].code, methods, WriteBytes, order);
      if run.Panic? {
        return Panic;
      }
      order := run.value.order;
      r := Return(StatusOf(run.value.failure));
    }

    /** `resolve_binaries()`: every binary tag with a symbol containing '_',
        filed under the text after the first '_'; always `Ok`. */
    method ResolveBinaries()
      modifies this
      ensures binaries == TableFrom(movie.binaries, Symbols(movie), RustSymbolKey, old(binaries))
      ensures keymap == old(keymap) && methods == old(methods) && order == old(order)
    {
      var symbols := if movie.symbolClass.Some? then movie.symbolClass.value else map[];
      var tags := movie.binaries;
      ghost var total := TableFrom(tags, symbols, RustSymbolKey, binaries);
      for i := 0 to |tags|
        invariant TableFrom(tags[i..], symbols, RustSymbolKey, binaries) == total
        invariant keymap == old(keymap) && methods == old(methods) && order == old(order)
      {
        var tag := tags[i];
        assert tags[i..][1..] == tags[i + 1..];
        if tag.charId in symbols {
          var name := RustSymbolKey(symbols[tag.charId]);
          if name.Some? {
            binaries := binaries[name.value := tag.data];
          }
        }
      }
    }

    /** `write_binaries(out)`: the payloads of `order` are written until a name
        is missing, which is returned. */
    method WriteBinaries() returns (missing: Option<Str>, written: seq<byte>)
      ensures missing == MissingName(order, binaries)
      ensures written == Written(order, binaries)
    {
      written := [];
      for i := 0 to |order|
        invariant i <= FirstMissing(order, binaries)
        invariant written == Payloads(order, binaries, i)
      {
        if order[i] !in binaries {
          return Some(order[i]), written;
        }
        written := written + binaries[order[i]];
      }
      missing := None;
    }
  }
}
