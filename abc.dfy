/** The values the unpacker reads from the external AVM2 decoder: instructions,
    methods, traits, classes, the constant pool and the movie's binary tags.
    Everything here is read-only to the unpacker. */
module Abc {

  /** An 8-bit value: a C++ `char`/`uint8_t` or a Rust `u8`. */
  type byte = x: int | 0 <= x < 256

  /** Text as the unpacker handles it: a sequence of bytes. */
  type Str = seq<byte>

  datatype Option<T> = None | Some(value: T)

  /** A Rust computation either returns its value or panics. */
  datatype Outcome<T> = Return(value: T) | Panic

  /** Result of a Rust operation that returns `Result<()>`. */
  datatype Status<E> = Ok | Err(error: E)

  /** The instructions the unpacker distinguishes, with their operands. */
  datatype Op =
    | GetLocal0
    | CallProperty(property: nat, argCount: nat)
    | Add
    | PushByte(value: byte)
    | PushString(index: nat)
    | ConstructSuper(argCount: nat)
    | Other(code: byte, operands: seq<nat>)

  /** The generic operand list (`Instruction::args` of the C++ decoder). */
  function Args(op: Op): (args: seq<nat>)
    ensures op.CallProperty? ==> |args| == 2 && args[0] == op.property
    ensures op.PushByte? ==> args == [op.value as nat]
    ensures op.PushString? ==> args == [op.index]
    ensures op.GetLocal0? || op.Add? ==> args == []
  {
    match op
    case GetLocal0 => []
    case CallProperty(p, n) => [p, n]
    case Add => []
    case PushByte(v) => [v as nat]
    case PushString(i) => [i]
    case ConstructSuper(n) => [n]
    case Other(_, xs) => xs
  }

  datatype Instruction = Instruction(op: Op, addr: nat)

  /** A decoded method body. A cursor into it is a position `p <= |prog|`;
      `p == |prog|` is `nullptr` / the exhausted iterator. */
  type Program = seq<Instruction>

  predicate IsPushString(op: Op) { op.PushString? }
  predicate IsPushByte(op: Op) { op.PushByte? }
  predicate IsConstructSuper(op: Op) { op.ConstructSuper? }
  predicate IsNotAdd(op: Op) { !op.Add? }

  /** The first position at or after `p` whose instruction satisfies `want`,
      or `|prog|` when there is none: a forward scan without backtracking. */
  function FirstFrom(prog: Program, p: nat, want: Op -> bool): (r: nat)
    requires p <= |prog|
    ensures p <= r <= |prog|
    ensures r < |prog| ==> want(prog[r].op)
    ensures forall k :: p <= k < r ==> !want(prog[k].op)
    decreases |prog| - p
  {
    if p == |prog| then p
    else if want(prog[p].op) then p
    else FirstFrom(prog, p + 1, want)
  }

  /** A prefix of a prefix is a prefix. */
  lemma PrefixOfPrefix<T>(a: seq<T>, b: seq<T>, c: seq<T>)
    requires |b| <= |a| && a[..|b|] == b && |c| <= |b| && b[..|c|] == c
    ensures a[..|c|] == c
  {
    assert a[..|b|][..|c|] == a[..|c|];
  }

  /** A call-unit: `getlocal0` immediately followed by `callproperty`. */
  predicate AtCallUnit(prog: Program, p: nat) {
    p + 1 < |prog| && prog[p].op.GetLocal0? && prog[p + 1].op.CallProperty?
  }

  predicate AtAdd(prog: Program, p: nat) {
    p < |prog| && prog[p].op.Add?
  }

  /** The first call-unit at or after `p`, or `|prog|` when there is none. */
  function FirstCallUnit(prog: Program, p: nat): (r: nat)
    requires p <= |prog|
    ensures p <= r <= |prog|
    ensures r < |prog| ==> AtCallUnit(prog, r)
    ensures forall k :: p <= k < r ==> !AtCallUnit(prog, k)
    decreases |prog| - p
  {
    if p == |prog| then p
    else if AtCallUnit(prog, p) then p
    else FirstCallUnit(prog, p + 1)
  }

  /** A method body with the two facts the unpacker looks at. */
  datatype MethodInfo = MethodInfo(needRest: bool, maxStack: nat, code: Program)

  datatype TraitKind = Slot | Method | Getter | Setter | Class | Function | Const

  /** A trait: its kind, its name (a multiname index) and, for a Method trait, its method index. */
  datatype Trait = Trait(kind: TraitKind, name: nat, index: nat)

  datatype ClassInfo = ClassInfo(itraits: seq<Trait>, cinit: nat, iinit: nat)

  /** The decoded ABC file: constant-pool strings, methods and classes. */
  datatype AbcFile = AbcFile(strings: seq<Str>, methods: seq<MethodInfo>, classes: seq<ClassInfo>)

  /** The fingerprint of a character accessor: it takes a `...rest` argument
      and its operand stack never holds more than two values. */
  predicate IsAccessor(m: MethodInfo) {
    m.needRest && m.maxStack == 2
  }

  /** A DefineBinaryData tag: a character id and its payload. */
  datatype BinaryTag = BinaryTag(charId: nat, data: seq<byte>)

  /** The movie as far as the unpacker reads it: the `frame1` ABC file if the
      movie has one, the SymbolClass table if the movie has one, and the
      binary tags in file order. */
  datatype Movie = Movie(frame1: Option<AbcFile>, symbolClass: Option<map<nat, Str>>, binaries: seq<BinaryTag>)

  /** The method name every resource write is called through: "writeBytes". */
  const WriteBytes: Str := [0x77, 0x72, 0x69, 0x74, 0x65, 0x42, 0x79, 0x74, 0x65, 0x73]
}
