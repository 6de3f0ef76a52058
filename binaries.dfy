/** The binaries table and the write-out, shared by every version of the
    unpacker: each DefineBinaryData tag is filed under its SymbolClass name with
    the prefix up to the first '_' removed, and the payloads are written in the
    order the obfuscated code loads them. */
module Binaries {
  import opened Abc

  const Underscore: byte := 0x5F

  /** The position of the first '_' in `s`, or `|s|` when there is none
      (`std::string::find` returning `npos`). */
  function FindUnderscore(s: Str): (i: nat)
    ensures i <= |s|
    ensures i < |s| ==> s[i] == Underscore
    ensures forall j :: 0 <= j < i ==> s[j] != Underscore
  {
    if s == [] then 0
    else if s[0] == Underscore then 0
    else 1 + FindUnderscore(s[1..])
  }

  predicate HasUnderscore(s: Str) {
    exists j :: 0 <= j < |s| && s[j] == Underscore
  }

  /** `s.substr(s.find('_') + 1)`: the text after the first '_'; as `npos + 1`
      wraps to 0, a name without '_' is kept whole. */
  function CppSymbolKey(s: Str): (k: Str)
    ensures !HasUnderscore(s) ==> k == s
    ensures HasUnderscore(s) ==> k == s[FindUnderscore(s) + 1..]
  {
    var i := FindUnderscore(s);
    if i == |s| then s else s[i + 1..]
  }

  /** `s.split_once('_').map(|(_, s)| s)`: the text after the first '_', or
      nothing when `s` holds no '_'. */
  function RustSymbolKey(s: Str): (k: Option<Str>)
    ensures k.None? <==> !HasUnderscore(s)
    ensures k.Some? ==> s == s[..FindUnderscore(s)] + [Underscore] + k.value
  {
    var i := FindUnderscore(s);
    if i == |s| then None else Some(s[i + 1..])
  }

  /** The C++ key and the Rust key coincide wherever the Rust one exists; the
      C++ code also files names without '_', under the whole name. */
  lemma KeysAgree(s: Str)
    ensures RustSymbolKey(s).Some? ==> RustSymbolKey(s).value == CppSymbolKey(s)
    ensures RustSymbolKey(s).None? ==> CppSymbolKey(s) == s
  {
  }

  /** The key never keeps the prefix: it is a proper suffix after a '_', or the
      whole name when there is no '_'. */
  lemma KeyIsSuffix(s: Str)
    ensures |CppSymbolKey(s)| <= |s|
    ensures HasUnderscore(s) ==> |CppSymbolKey(s)| < |s| && s[|s| - |CppSymbolKey(s)|..] == CppSymbolKey(s)
  {
  }

  /** The table `for tag in binaries { if symbol found { table[key] = tag } }`
      builds, with `key` the language's key rule; later tags overwrite earlier ones. */
  function TableFrom(tags: seq<BinaryTag>, symbols: map<nat, Str>, key: Str -> Option<Str>,
                     table: map<Str, seq<byte>>): (r: map<Str, seq<byte>>)
    ensures table.Keys <= r.Keys
    ensures forall i :: 0 <= i < |tags| && tags[i].charId in symbols && key(symbols[tags[i].charId]).Some? ==>
              key(symbols[tags[i].charId]).value in r
    decreases |tags|
  {
    if tags == [] then table
    else
      var t := tags[0];
      var next := if t.charId in symbols && key(symbols[t.charId]).Some?
                  then table[key(symbols[t.charId]).value := t.data] else table;
      TableFrom(tags[1..], symbols, key, next)
  }

  /** Tag `t` is filed under `name`. */
  predicate FiledUnder(t: BinaryTag, symbols: map<nat, Str>, key: Str -> Option<Str>, name: Str) {
    t.charId in symbols && key(symbols[t.charId]) == Some(name)
  }

  /** A name no tag is filed under keeps its entry, or its absence. */
  lemma {:induction false} TableUntouched(tags: seq<BinaryTag>, symbols: map<nat, Str>,
                                          key: Str -> Option<Str>, table: map<Str, seq<byte>>, name: Str)
    requires forall i :: 0 <= i < |tags| ==> !FiledUnder(tags[i], symbols, key, name)
    ensures var r := TableFrom(tags, symbols, key, table);
            (name in r <==> name in table) && (name in table ==> r[name] == table[name])
    decreases |tags|
  {
    if tags != [] {
      var t := tags[0];
      assert !FiledUnder(tags[0], symbols, key, name);
      var next := if t.charId in symbols && key(symbols[t.charId]).Some?
                  then table[key(symbols[t.charId]).value := t.data] else table;
      forall j | 0 <= j < |tags[1..]|
        ensures !FiledUnder(tags[1..][j], symbols, key, name)
      {
        assert tags[1..][j] == tags[j + 1];
      }
      TableUntouched(tags[1..], symbols, key, next, name);
    }
  }

  /** The last tag filed under a name is the one whose payload the name holds. */
  lemma {:induction false} TableLastWins(tags: seq<BinaryTag>, symbols: map<nat, Str>,
                                         key: Str -> Option<Str>, table: map<Str, seq<byte>>, name: Str, i: nat)
    requires i < |tags| && FiledUnder(tags[i], symbols, key, name)
    requires forall j :: i < j < |tags| ==> !FiledUnder(tags[j], symbols, key, name)
    ensures var r := TableFrom(tags, symbols, key, table);
            name in r && r[name] == tags[i].data
    decreases |tags|
  {
    var t := tags[0];
    var next := if t.charId in symbols && key(symbols[t.charId]).Some?
                then table[key(symbols[t.charId]).value := t.data] else table;
    assert TableFrom(tags, symbols, key, table) == TableFrom(tags[1..], symbols, key, next);
    forall j | i <= j < |tags[1..]|
      ensures !FiledUnder(tags[1..][j], symbols, key, name)
    {
      assert tags[1..][j] == tags[j + 1];
    }
    if i == 0 {
      assert name in next && next[name] == t.data;
      TableUntouched(tags[1..], symbols, key, next, name);
    } else {
      assert tags[1..][i - 1] == tags[i];
      TableLastWins(tags[1..], symbols, key, next, name, i - 1);
    }
  }

  /** Last writer wins: a name holds the payload of the last tag filed under it,
      and a name no tag is filed under keeps its entry (or its absence). */
  lemma TableLastWriter(tags: seq<BinaryTag>, symbols: map<nat, Str>,
                        key: Str -> Option<Str>, table: map<Str, seq<byte>>, name: Str)
    ensures var r := TableFrom(tags, symbols, key, table);
            && ((forall i :: 0 <= i < |tags| ==> !FiledUnder(tags[i], symbols, key, name)) ==>
                  (name in r <==> name in table) && (name in table ==> r[name] == table[name]))
            && (forall i :: (0 <= i < |tags| && FiledUnder(tags[i], symbols, key, name)
                               && (forall j :: i < j < |tags| ==> !FiledUnder(tags[j], symbols, key, name)))
                             ==> name in r && r[name] == tags[i].data)
  {
    if forall i :: 0 <= i < |tags| ==> !FiledUnder(tags[i], symbols, key, name) {
      TableUntouched(tags, symbols, key, table, name);
    }
    forall i | 0 <= i < |tags| && FiledUnder(tags[i], symbols, key, name)
        && (forall j :: i < j < |tags| ==> !FiledUnder(tags[j], symbols, key, name))
      ensures var r := TableFrom(tags, symbols, key, table);
              name in r && r[name] == tags[i].data
    {
      TableLastWins(tags, symbols, key, table, name, i);
    }
  }

  /** The C++ key rule, as a total key function. */
  function CppKey(s: Str): Option<Str> {
    Some(CppSymbolKey(s))
  }

  /** The two tables differ only on symbols without '_': the C++ code files
      those under their whole name, the Rust code skips them. */
  lemma {:induction false} TablesAgree(tags: seq<BinaryTag>, symbols: map<nat, Str>, table: map<Str, seq<byte>>)
    requires forall i :: 0 <= i < |tags| && tags[i].charId in symbols ==> HasUnderscore(symbols[tags[i].charId])
    ensures TableFrom(tags, symbols, CppKey, table) == TableFrom(tags, symbols, RustSymbolKey, table)
    decreases |tags|
  {
    if tags != [] {
      var t := tags[0];
      if t.charId in symbols {
        KeysAgree(symbols[t.charId]);
      }
      forall i | 0 <= i < |tags[1..]| && tags[1..][i].charId in symbols
        ensures HasUnderscore(symbols[tags[1..][i].charId])
      {
        assert tags[1..][i] == tags[i + 1];
      }
      var next := if t.charId in symbols then table[CppSymbolKey(symbols[t.charId]) := t.data] else table;
      TablesAgree(tags[1..], symbols, next);
    }
  }

  /** The index of the first name of `order` that `table` does not hold, or
      `|order|` when it holds them all. */
  function FirstMissing(order: seq<Str>, table: map<Str, seq<byte>>): (i: nat)
    ensures i <= |order|
    ensures forall j :: 0 <= j < i ==> order[j] in table
    ensures i < |order| ==> order[i] !in table
  {
    if order == [] then 0
    else if order[0] !in table then 0
    else 1 + FirstMissing(order[1..], table)
  }

  /** The payloads of the first `n` names of `order`, one after another. */
  function Payloads(order: seq<Str>, table: map<Str, seq<byte>>, n: nat): (r: seq<byte>)
    requires n <= |order| && forall j :: 0 <= j < n ==> order[j] in table
    ensures forall j :: 0 <= j < n ==> |table[order[j]]| <= |r|
    ensures n > 0 ==> r[|r| - |table[order[n - 1]]|..] == table[order[n - 1]]
  {
    if n == 0 then [] else Payloads(order, table, n - 1) + table[order[n - 1]]
  }

  /** What `write_binaries` reports: the first missing name, if any. */
  function MissingName(order: seq<Str>, table: map<Str, seq<byte>>): (r: Option<Str>)
    ensures r.None? <==> forall j :: 0 <= j < |order| ==> order[j] in table
    ensures r.Some? ==> r.value !in table && r.value in order
  {
    var i := FirstMissing(order, table);
    if i < |order| then Some(order[i]) else None
  }

  /** What `write_binaries` writes: the payloads of exactly the names before the
      first missing one, in order. */
  function Written(order: seq<Str>, table: map<Str, seq<byte>>): (r: seq<byte>)
    ensures (forall j :: 0 <= j < |order| ==> order[j] in table) ==> r == Payloads(order, table, |order|)
  {
    Payloads(order, table, FirstMissing(order, table))
  }

  lemma {:induction false} FirstMissingStops(order: seq<Str>, more: seq<Str>, table: map<Str, seq<byte>>)
    requires FirstMissing(order, table) < |order|
    ensures FirstMissing(order + more, table) == FirstMissing(order, table)
    decreases |order|
  {
    assert (order + more)[0] == order[0];
    if order[0] in table {
      assert (order + more)[1..] == order[1..] + more;
      FirstMissingStops(order[1..], more, table);
    }
  }

  /** A missing name stops the write: extending the order after it changes
      neither the report nor the bytes written. */
  lemma MissingStops(order: seq<Str>, more: seq<Str>, table: map<Str, seq<byte>>)
    requires MissingName(order, table).Some?
    ensures MissingName(order + more, table) == MissingName(order, table)
    ensures Written(order + more, table) == Written(order, table)
  {
    var i := FirstMissing(order, table);
    FirstMissingStops(order, more, table);
    assert (order + more)[..i] == order[..i];
    assert (order + more)[i] == order[i];
    PayloadsPrefix(order, order + more, table, i);
  }

  /** With every name so far present, one more present name writes its payload
      after all the earlier ones. */
  lemma WrittenExtends(order: seq<Str>, name: Str, table: map<Str, seq<byte>>)
    requires MissingName(order, table).None? && name in table
    ensures MissingName(order + [name], table).None?
    ensures Written(order + [name], table) == Written(order, table) + table[name]
  {
    var o := order + [name];
    assert forall j :: 0 <= j < |o| ==> o[j] in table by {
      forall j | 0 <= j < |o| ensures o[j] in table {
        if j < |order| { assert o[j] == order[j]; }
      }
    }
    assert o[..|order|] == order[..|order|];
    PayloadsPrefix(order, o, table, |order|);
  }

  lemma {:induction false} PayloadsPrefix(a: seq<Str>, b: seq<Str>, table: map<Str, seq<byte>>, n: nat)
    requires n <= |a| && n <= |b| && a[..n] == b[..n] && forall j :: 0 <= j < n ==> a[j] in table
    ensures forall j :: 0 <= j < n ==> b[j] in table
    ensures Payloads(a, table, n) == Payloads(b, table, n)
  {
    forall j | 0 <= j < n ensures b[j] in table {
      assert a[..n][j] == b[..n][j];
    }
    if n > 0 {
      assert a[..n - 1] == a[..n][..n - 1];
      assert b[..n - 1] == b[..n][..n - 1];
      assert a[n - 1] == a[..n][n - 1];
      PayloadsPrefix(a, b, table, n - 1);
    }
  }
}
