# A model of the unpacker's obfuscation reversal

The unpacker takes a protected Flash movie. It recovers the payload hidden in
the movie's `DefineBinaryData` tags. The protection's loader class names its
binary resources with obfuscated strings. Each character of such a string is
produced by a call to a tiny method returning one keymap character, and
the strings are glued with `add`. To rebuild the payload, the unpacker does
five things:

1. It reads the **keymap**: the first `pushstring` of the first class's
   static initialiser.
2. It builds the **method table**. This maps each accessor method's name id
   to the keymap character that its `pushbyte` selects. Only methods that
   take a `...rest` argument and have `max_stack == 2` are accessors.
3. It walks the instance initialiser after `constructsuper`, decoding each
   obfuscated string with the **string finder**. Whenever a string spells
   `writeBytes`, the string that follows is the name of the next binary, in
   payload **order**.
4. It files every binary tag under its symbol name with the prefix up to the
   first `_` removed: the **binaries** table.
5. It concatenates the binaries' payloads in order, stopping at the first
   name that has no binary.

The repository implements this in three forms, and each is modelled here:

- a C++ library, with the class `Unpacker` and the class `StringFinder`;
- a second C++ implementation of the same steps as free functions
  (src/unpacker.cpp), separate from the class; the command-line program
  src/main.cpp drives the class;
- two generations of a Rust crate.

The older Rust crate panics on a method index outside the method table. The
newer one skips that trait and reports keymap index errors with the offending
operand.

Modules:

- `Abc` holds the data model: opcodes, instructions (each with its address),
  method bodies, traits, classes, the constant pool and the movie. It also
  holds the "first position from `p` where…" searches.
- `Chains` describes an obfuscated string as the code lays it out. A string
  is a run of call-units `getlocal0; callproperty id`, with leading `add`s
  gluing them. `Decode` says which characters such a chain spells. `EncodeChain`
  builds such a chain from its ids.
- `CppFinder` models the C++ `StringFinder`. It is a class over a shared
  instruction list, with a cursor `ins`; the position `|prog|` stands for
  `nullptr`. Each walker step has a specification function. That function
  is `None` exactly when the C++ code would dereference `nullptr` or read
  past an instruction's arguments, which is undefined behaviour.
- `RustFinder` models the Rust `StringFinder` over an instruction iterator.
  A panic (`get()` on the exhausted iterator, `methods[&b]` on an unmapped
  id) is the outcome `Panic`.
- `CppResolve` and `RustResolve` hold the specification functions of keymap,
  method-table and order resolution in the two languages. `RustResolve` also
  holds the methods of the order loop.
- `Binaries` holds the symbol-key rules, the binaries table and the payload
  writer.
- `Utf8` holds the UTF-8 validity check that `String::from_utf8` performs on a
  decoded name.
- `CppUnpacker`, `RustUnpacker` and `RustUnpackerNext` hold the three
  unpacker classes, whose methods update the unpacker's fields. `CppFree`
  holds the free functions of src/unpacker.cpp, which take the tables as
  parameters and return them. Each method is proved equal to the
  specification functions.

## Model

| member | source | states |
|---|---|---|
| Abc.FirstCallUnit | src/string_finder.rs:34-36 | `skip_until_seq([getlocal0, callproperty])` stops at the first call-unit at or after the cursor, or at the end |
| Abc.FirstFrom | lib/unpacker.cpp:101-106 | the search loop stops at the first instruction with the wanted opcode, and at the end when there is none |
| Chains.Decode | lib/string_finder.cpp:56-60 | a chain of ids decodes to at most one character per id; when every id is mapped, it decodes to exactly the mapped characters in order |
| Chains.DecodeAppend | lib/string_finder.cpp:56-60 | decoding is compositional: two chains decode to the concatenation of their decodings |
| Chains.DecodeDropsGap | src/string_finder.rs:71-75 | an unmapped id anywhere in a chain contributes nothing: the chain decodes to the decodings of the parts before and after it |
| Chains.ChainEnd | lib/string_finder.cpp:38-45 | a well-formed chain ends inside the stream, on an instruction that is no `add` and starts no call-unit |
| Chains.EncodeChainRoundTrip | lib/string_finder.cpp:49-63 | the code an obfuscator emits for a list of ids is a well-formed chain whose ids are exactly that list and which ends right after it |
| CppFinder.NextStringFrom | lib/string_finder.cpp:16-23 | `next_string` leaves the cursor at or after its start, and on a call-unit when it returns true |
| CppFinder.NextStringFindsFirst | lib/string_finder.cpp:16-23 | `next_string` is defined exactly when it finds a call-unit, starts at the end, or the last instruction is not a `getlocal0` (whose null `next` `is_string` would read); then it stops on the first call-unit with true, or at the end with false |
| CppFinder.NextStringStaysAtCallUnit | lib/string_finder.cpp:17-19 | on a call-unit, `next_string` returns true without moving |
| CppFinder.SkipAddsFindsEnd | lib/string_finder.cpp:29-30 | the `add` loop stops at the first non-`add`, and is undefined when the list ends in `add`s |
| CppFinder.NextCharAt | lib/string_finder.cpp:25-36 | when `next_char` reads an id, it moves past the call-unit's two instructions |
| CppFinder.NextCharSteps | lib/string_finder.cpp:25-36 | `next_char` returns false exactly off an `add` or call-unit; a read id is `args[0]` of the instruction that follows the `add`s, whatever its opcode |
| CppFinder.NextCharAtCallUnit | lib/string_finder.cpp:29-35 | on a call-unit, `next_char` reads its property id and moves two instructions |
| CppFinder.NextCharOnChain | lib/string_finder.cpp:25-36 | on a well-formed chain, `next_char` reads the chain's first id and leaves the rest of the chain |
| CppFinder.SkipStringFrom | lib/string_finder.cpp:38-45 | `skip_string` only moves forward, stays inside the list, and stops where `is_add_string` is false: on neither an `add` nor a call-unit, at an instruction it can inspect |
| CppFinder.SkipAddRun | lib/string_finder.cpp:39-44 | `skip_string` over a run of `add`s before a call-unit ends where it would from that call-unit |
| CppFinder.SkipOnChain | lib/string_finder.cpp:38-45 | `skip_string` on a well-formed chain stops exactly at the chain's end |
| CppFinder.BuildLoopFrom | lib/string_finder.cpp:56-60 | the `build` loop only moves forward |
| CppFinder.BuildLoopOnChain | lib/string_finder.cpp:56-60 | the `build` loop on a well-formed chain appends the chain's decoding and stops at its end |
| CppFinder.SkipAgreesWithBuild | lib/string_finder.cpp:38-60 | on a well-formed chain, `skip_string` and the `build` loop stop at the same instruction |
| CppFinder.BuildLoopLength | lib/string_finder.cpp:56-60 | the `build` loop keeps what it has built as a prefix and appends at most one character per two instructions it passes |
| CppFinder.BuildFrom | lib/string_finder.cpp:49-63 | `build` only moves forward |
| CppFinder.BuildResyncs | lib/string_finder.cpp:53-54 | off a call-unit, `build` first moves to the next string; on one, it starts reading at once |
| CppFinder.BuildOnChain | lib/string_finder.cpp:49-63 | `build` on a well-formed chain returns the chain's decoding under the method table and stops at its end |
| CppFinder.BuildRoundTrip | lib/string_finder.cpp:49-63 | building the chain encoded from a list of ids gives back those ids' characters |
| CppFinder.MatchFrom | lib/unpacker.cpp:158-167 | `match_target` only moves forward, moves when the target is non-empty and the cursor is on a string, only adds entries to the table, and adds entries equal to '\0' |
| CppFinder.SpellsMeans | lib/unpacker.cpp:158-167 | a chain spells the target exactly when it is at least as long as the target and each id's entry (or '\0') equals the target's character at that place |
| CppFinder.SpellsGrown | lib/unpacker.cpp:161 | inserting the '\0' entry for an id does not change what a chain spells |
| CppFinder.MatchOnChain | lib/unpacker.cpp:158-167 | on a well-formed chain, `match_target` is defined and succeeds exactly when the chain spells the target; on failure, or after matching the whole chain, the cursor is at the chain's end |
| CppFinder.MatchKeepsMappedTable | lib/unpacker.cpp:161 | when every id of the chain is mapped, `match_target` leaves the method table unchanged |
| CppFinder.MatchInsertsZero | lib/unpacker.cpp:161 | on a chain whose first id is unmapped, `methods[chr]` inserts a '\0' entry for it and, for a target not starting with '\0', the match fails at the chain's end with that grown table |
| CppFinder.StringFinder.constructor | lib/string_finder.cpp:4 | a finder starts at the given instruction |
| CppFinder.StringFinder.IsString | lib/string_finder.cpp:6-8 | `is_string` holds exactly on a call-unit |
| CppFinder.StringFinder.IsAddString | lib/string_finder.cpp:10 | `is_add_string` holds exactly on a call-unit or an `add` |
| CppFinder.StringFinder.IsNextAddString | lib/string_finder.cpp:11-14 | `is_next_add_string` holds exactly when the next instruction starts a call-unit or is an `add` |
| CppFinder.StringFinder.Addr | lib/string_finder.cpp:47 | `addr` is the current instruction's address |
| CppFinder.StringFinder.NextString | lib/string_finder.cpp:16-23 | moves the cursor to where `NextStringFrom` says and returns its verdict |
| CppFinder.StringFinder.NextChar | lib/string_finder.cpp:25-36 | returns true with the id read exactly when `NextCharAt` reads one; otherwise `chr` and the cursor are untouched |
| CppFinder.StringFinder.SkipString | lib/string_finder.cpp:38-45 | moves the cursor to where `SkipStringFrom` says |
| CppFinder.StringFinder.Build | lib/string_finder.cpp:49-63 | returns the string `BuildFrom` specifies and leaves the cursor where it ends |
| RustFinder.Next | src/string_finder.rs:40-42 | the iterator's `next()` advances by one and never passes the end |
| RustFinder.SkipStringFrom | src/string_finder.rs:37-44 | `skip_string` only moves forward and stops off every `add` and call-unit |
| RustFinder.SkipAtCallUnit | src/string_finder.rs:37-44 | on a call-unit, `skip_string` moves one step, onto the `callproperty` |
| RustFinder.SkipAddRun | src/string_finder.rs:37-44 | over a run of `add`s ending in a call-unit, `skip_string` stops on that call-unit's `callproperty` |
| RustFinder.SkipInChain | src/string_finder.rs:37-44 | inside a well-formed chain, `skip_string` stops one instruction into the next call-unit rather than at the chain's end |
| RustFinder.SkipDiverges | src/string_finder.rs:39-42 | on a concrete stream, the Rust `skip_string` stops at a different instruction than the C++ one |
| RustFinder.NextCharAt | src/string_finder.rs:46-63 | off a string `next_char` returns no id without moving; a read id is the `property` of the `callproperty` one step after the `add`s, and the cursor is left on the instruction after it, inside the stream; after no id the cursor has not moved back, and it has moved forward when it started on a string |
| RustFinder.NextCharOnChain | src/string_finder.rs:46-63 | at a chain's end `next_char` reads nothing and stays; inside the chain it reads the next id and leaves the rest of the chain |
| RustFinder.TrailingUnitDropped | src/string_finder.rs:62 | a call-unit that ends the stream yields no id in Rust, while the C++ walker reads it |
| RustFinder.MatchFrom | src/string_finder.rs:20-32 | `match_target` only moves forward, and moves for a non-empty target on a string |
| RustFinder.SpellsMappedStep | src/string_finder.rs:21-25 | a chain spells the target through mapped ids exactly when its first id does and the rest spells the rest |
| RustFinder.MatchOnChain | src/string_finder.rs:20-32 | on a chain whose ids are all mapped, `match_target` succeeds exactly when the chain spells the target |
| RustFinder.MatchPanicsOnUnmapped | src/string_finder.rs:23 | `methods[&b]` on an unmapped id panics |
| RustFinder.BuildLoopFrom | src/string_finder.rs:71-75 | the `build` loop only moves forward |
| RustFinder.BuildLoopOnChain | src/string_finder.rs:71-75 | the `build` loop on a well-formed chain appends the chain's decoding and stops at its end |
| RustFinder.BuildFrom | src/string_finder.rs:65-77 | `build` only moves forward |
| RustFinder.BuildOnChain | src/string_finder.rs:65-77 | `build` on a well-formed chain returns its decoding and stops at its end |
| RustFinder.BuildRoundTrip | src/string_finder.rs:65-77 | building the encoded chain of a list of ids gives back those ids' characters |
| RustFinder.BuildsAgree | src/string_finder.rs:65-77 | on a well-formed chain, the Rust and C++ `build` give the same string and position |
| RustFinder.StringFinder.constructor | src/string_finder.rs:12-14 | a finder holds the iterator and the method table it is given |
| RustFinder.StringFinder.IsAddStringHere | src/string_finder.rs:16-18 | `is_add_string` holds exactly on an `add` or on the `[getlocal0, callproperty]` sequence |
| RustFinder.StringFinder.NextString | src/string_finder.rs:34-36 | moves to the first call-unit from the cursor and returns whether there was one |
| RustFinder.StringFinder.SkipString | src/string_finder.rs:37-44 | moves the cursor to where `SkipStringFrom` says |
| RustFinder.StringFinder.NextChar | src/string_finder.rs:46-63 | panics exactly when `NextCharAt` does; otherwise returns its id (or `None`) and leaves the cursor at its position |
| RustFinder.StringFinder.MatchTarget | src/string_finder.rs:20-32 | panics exactly when `MatchFrom` does; otherwise returns its verdict and leaves the cursor at its position |
| RustFinder.StringFinder.Build | src/string_finder.rs:65-77 | panics exactly when `BuildFrom` does; otherwise returns its string and leaves the cursor at its position |
| CppResolve.KeymapFrom | lib/unpacker.cpp:169-177 | without a `pushstring` the keymap is unchanged; otherwise it is the pool string at the first `pushstring`'s operand (undefined outside the pool) |
| CppResolve.KeymapChar | lib/unpacker.cpp:192 | `keymap[b]` is the keymap's character below its length, '\0' at its length, and undefined beyond |
| CppResolve.TraitEntryReads | lib/unpacker.cpp:183-197 | a non-method trait does nothing; a method trait outside the method list is undefined; an entry comes from an accessor's first `pushbyte` and is the keymap character at its operand, or '\0' at the keymap's length |
| CppResolve.CharMapFrom | lib/unpacker.cpp:179-200 | resolving the method table only adds entries |
| CppResolve.CharMapDefined | lib/unpacker.cpp:182-196 | resolution is defined exactly when each trait's own step is: a method trait's index is in the method list and an accessor's byte is at most the keymap's length |
| CppResolve.CharMapLastWriter | lib/unpacker.cpp:182-196 | a name no trait writes keeps its previous entry (or stays absent); a name some trait writes ends with the entry of the last trait that writes it |
| CppResolve.CharMapUntouched | lib/unpacker.cpp:182-196 | when no trait writes a name, the loop leaves that name's entry (or its absence) as it was |
| CppResolve.CharMapWriterAt | lib/unpacker.cpp:182-196 | a trait that writes a name, with no later trait writing it, decides that name's final entry |
| CppResolve.OrderRound | lib/unpacker.cpp:112-118 | one round of the order loop either stops or moves strictly forward |
| CppResolve.OrderFrom | lib/unpacker.cpp:108-118 | the order loop only appends to the order |
| CppResolve.MatchedRound | lib/unpacker.cpp:112-118 | a string of exactly as many ids as `writeBytes` that spells it, followed by a chain, makes a round record that chain's decoding and stop at its end |
| CppResolve.OrderMatchedStep | lib/unpacker.cpp:108-118 | such a round appends the decoded name and the loop goes on after the name |
| CppResolve.SkippedRound | lib/unpacker.cpp:113 | a string that does not spell the target is skipped to its end |
| CppResolve.OrderMismatchStep | lib/unpacker.cpp:112-118 | after such a string the loop goes on from the string's end with the order unchanged |
| CppResolve.OrderStops | lib/unpacker.cpp:112 | with no string left, the loop ends and the order and table are unchanged |
| CppResolve.NoSuperNoOrder | lib/unpacker.cpp:100-112 | without a `constructsuper` in the instance initialiser, no resource name is recorded |
| CppResolve.ResolveOrderOf | lib/unpacker.cpp:85-119 | the reference definition of `resolve_order` after `has_frame1`: defined only when the first class and its `cinit` and `iinit` methods exist; the order only grows and the table only gains entries |
| CppUnpacker.Unpacker.constructor | lib/unpacker.cpp:24-28 | a new unpacker has no ABC file loaded and empty keymap, method table, order and binaries |
| CppUnpacker.Unpacker.ResolveKeymap | lib/unpacker.cpp:169-177 | sets the keymap to `KeymapFrom` and changes nothing else |
| CppUnpacker.Unpacker.ResolveMethods | lib/unpacker.cpp:179-200 | sets the method table to `CharMapFrom` over the first class's traits and changes nothing else |
| CppUnpacker.Unpacker.MatchTarget | lib/unpacker.cpp:158-167 | returns `MatchFrom`'s verdict, table and cursor |
| CppUnpacker.Unpacker.ResolveOrder | lib/unpacker.cpp:85-119 | does nothing without `frame1`; otherwise loads it and sets keymap, methods and order to `ResolveOrderOf` |
| CppUnpacker.Unpacker.FindOrder | lib/unpacker.cpp:96-118 | appends to the order, from the first `constructsuper`, what `OrderFrom` says, and updates the table as it does |
| CppUnpacker.Unpacker.ResolveBinaries | lib/unpacker.cpp:121-134 | does nothing without a symbol class; otherwise files the tags as `TableFrom` with the C++ key says |
| CppUnpacker.Unpacker.WriteBinaries | lib/unpacker.cpp:147-156 | returns the first order name without a binary, if any, and the payloads written before it |
| CppFree.MatchTarget | src/unpacker.cpp:3-13 | returns `MatchFrom`'s verdict and table, with the table passed by reference |
| CppFree.GetKeymap | src/unpacker.cpp:15-23 | returns the keymap `KeymapFrom` specifies, starting from an empty one |
| CppFree.GetMethods | src/unpacker.cpp:25-49 | returns the table `CharMapFrom` specifies, starting from an empty one |
| CppFree.FindOrder | src/unpacker.cpp:59-83 | returns the order and table `OrderFrom` specifies from the first `constructsuper` |
| CppFree.ResolveOrder | src/unpacker.cpp:51-84 | returns the order `ResolveOrderOf` specifies from empty state |
| CppFree.GetBinaries | src/unpacker.cpp:86-99 | returns the table `TableFrom` with the C++ key specifies |
| RustResolve.KeymapFrom | src/unpacker.rs:46-60 | without a `pushstring` the keymap is unchanged; otherwise the pool string at its operand, or `None` outside the pool |
| RustResolve.KeymapsAgree | src/unpacker.rs:46-60 | when the C++ keymap lookup is defined the Rust one finds the same string; when it is not, the Rust one finds none |
| RustResolve.TraitEntry | src/unpacker.rs:69-89 | a trait panics exactly when it is a method trait outside the method list (old crate); an insert or an error comes from an accessor with a `pushbyte`: an insert is the keymap byte at the first `pushbyte`'s operand, an error is `KeymapIndex` of that operand when it is outside the keymap |
| RustResolve.CharMapFrom | src/unpacker.rs:61-92 | the method table only gains entries, and the only failure is a keymap index error |
| RustResolve.CharMapsAgree | src/unpacker.rs:69-89 | when Rust resolution succeeds without error, C++ resolution is defined and builds the same table |
| RustResolve.LenientAgrees | unpacker/src/unpacker.rs:58-62 | when the old crate does not panic, the new crate's `continue` changes nothing |
| RustResolve.LenientResolvesAlike | unpacker/src/unpacker.rs:84-107 | when the old crate's `resolve_order` does not panic, the new crate's gives the same keymap, table, order and failure |
| RustResolve.ResolveMethodsOf | src/unpacker.rs:61-92 | with no keymap the table is unchanged and the error is "Keymap not found"; with a keymap and no class it panics |
| RustResolve.OrderRound | src/unpacker.rs:108-114 | a round that skips or records moves strictly forward, and a recorded name is valid UTF-8 |
| RustResolve.OrderFrom | src/unpacker.rs:108-115 | the loop only appends to the order, and its only failure is invalid UTF-8 |
| RustResolve.SuperOrderFrom | src/unpacker.rs:100-115 | without a `constructsuper` the order is unchanged and the failure is "construct_super was not found"; otherwise the order only grows |
| RustResolve.ResolveOrderOf | src/unpacker.rs:93-116 | a run without failure had a class and found a keymap; the order only grows |
| RustResolve.MatchedRound | src/unpacker.rs:108-114 | a string of exactly as many ids as the target that spells it, followed by a chain, records the chain's decoding when it is valid UTF-8 and is rejected otherwise |
| RustResolve.OrderMatchedStep | src/unpacker.rs:108-114 | the loop goes on after a recorded name with it appended, and stops with a UTF-8 error after a rejected one |
| RustResolve.OrderMismatchStep | src/unpacker.rs:108-114 | a mapped chain not spelling the target is skipped with the order unchanged; the loop resumes at the chain's end or, unlike C++, on a `callproperty` inside the chain |
| RustResolve.OrderPanicsOnUnmapped | src/unpacker.rs:109 | a string whose first id is unmapped makes the loop panic |
| RustResolve.OrderStops | src/unpacker.rs:108 | with no string left, the loop ends without failure and the order unchanged |
| RustResolve.OrderNamesValid | src/unpacker.rs:112 | every name the loop appends is valid UTF-8 |
| RustResolve.NoSuperFails | src/unpacker.rs:103-106 | without a `constructsuper`, `resolve_order` fails with "construct_super was not found" after resolving keymap and table, with the order unchanged |
| RustResolve.SuperOrder | src/unpacker.rs:100-115 | computes what `SuperOrderFrom` specifies, with a finder on the instance initialiser |
| RustResolve.OrderLoop | src/unpacker.rs:108-114 | computes what `OrderFrom` specifies from the finder's cursor |
| RustResolve.OrderStep | src/unpacker.rs:108-114 | computes one round as `OrderRound` specifies and leaves the cursor at its position |
| Utf8.HeadLength | src/unpacker.rs:112 | the first encoded character is at most four bytes long |
| Utf8.ValidUtf8 | src/unpacker.rs:112 | the reference definition of the check `String::from_utf8` makes; a valid non-empty text starts with a well-formed character whose lead byte is never 0xC0, 0xC1 or above 0xF4 |
| Utf8.AsciiIsValid | src/unpacker.rs:112 | every ASCII name is valid UTF-8 |
| Utf8.RejectsMalformed | src/unpacker.rs:112 | a stray continuation byte, an overlong form, a surrogate and a code point above U+10FFFF are rejected; a three-byte character is accepted |
| Binaries.FindUnderscore | lib/unpacker.cpp:130 | `find('_')` is the first underscore's index, or the length when there is none |
| Binaries.CppSymbolKey | lib/unpacker.cpp:130 | `substr(find('_') + 1)` is the text after the first '_', and the whole symbol when there is none |
| Binaries.RustSymbolKey | src/unpacker.rs:121 | the key is `None` exactly without '_'; otherwise the symbol is prefix, '_' and key |
| Binaries.KeysAgree | src/unpacker.rs:121 | with an underscore the Rust and C++ keys agree; without one, C++ keeps the whole symbol where Rust skips the tag |
| Binaries.KeyIsSuffix | lib/unpacker.cpp:130 | the key is a suffix of the symbol, and a proper one when the symbol has an underscore |
| Binaries.TableUntouched | lib/unpacker.cpp:126-133 | a name that no tag is filed under keeps its previous entry, or stays absent |
| Binaries.TableLastWins | lib/unpacker.cpp:126-133 | a name ends with the payload of the last tag filed under it |
| Binaries.TableLastWriter | lib/unpacker.cpp:126-133 | every name in the table comes from an earlier entry or from a tag filed under it |
| Binaries.TableFrom | lib/unpacker.cpp:126-133 | the reference definition of the binaries loop: earlier entries stay keys, and every tag with a symbol and a key is filed under that key |
| Binaries.TablesAgree | src/unpacker.rs:117-127 | when every tag's symbol has an underscore, the C++ and Rust tables are equal |
| Binaries.FirstMissing | lib/unpacker.cpp:147-156 | every name before the first missing one has a binary, and that one does not |
| Binaries.Payloads | lib/unpacker.cpp:147-156 | the reference definition of the bytes written for the first `n` names: every one of their payloads fits in it, and it ends with the last one's payload |
| Binaries.MissingName | lib/unpacker.cpp:147-156 | no name is reported exactly when every name has a binary; a reported name is in the order and has none |
| Binaries.Written | lib/unpacker.cpp:147-156 | the reference definition of what `write_binaries` writes; when every name has a binary, it is all the payloads in order |
| Binaries.FirstMissingStops | lib/unpacker.cpp:147-156 | names after a missing one do not change where writing stops |
| Binaries.MissingStops | lib/unpacker.cpp:147-156 | names after a missing one change neither the reported name nor the bytes written |
| Binaries.WrittenExtends | lib/unpacker.cpp:147-156 | with every name present, appending a present name appends its payload |
| Binaries.PayloadsPrefix | lib/unpacker.cpp:147-156 | the payload written for the first `n` names depends only on those names |
| RustUnpacker.Unpacker.constructor | src/unpacker.rs:25-37 | the unpacker of a movie with `frame1` starts with no keymap and empty tables |
| RustUnpacker.Unpacker.New | src/unpacker.rs:25-37 | fails with "Movie does not have a frame1" without `frame1`; otherwise a fresh unpacker with empty state |
| RustUnpacker.Unpacker.ResolveKeymap | src/unpacker.rs:46-60 | sets the keymap to `KeymapFrom` and changes nothing else |
| RustUnpacker.Unpacker.ResolveMethods | src/unpacker.rs:61-92 | panics exactly when `ResolveMethodsOf` does; otherwise sets its table and returns its error as `Error` |
| RustUnpacker.Unpacker.ResolveOrder | src/unpacker.rs:93-116 | panics exactly when `ResolveOrderOf` does; otherwise sets its keymap, table and order and returns its error |
| RustUnpacker.Unpacker.ResolveBinaries | src/unpacker.rs:117-127 | files the tags as `TableFrom` with the Rust key says and changes nothing else |
| RustUnpacker.Unpacker.WriteBinaries | src/unpacker.rs:128-136 | returns the first order name without a binary, if any, and the payloads written before it |
| RustUnpackerNext.Unpacker.constructor | unpacker/src/unpacker.rs:26-35 | the unpacker of a movie with `frame1` starts with no keymap and empty tables |
| RustUnpackerNext.Unpacker.New | unpacker/src/unpacker.rs:26-35 | fails with `MissingFrame1` without `frame1`; otherwise a fresh unpacker with empty state |
| RustUnpackerNext.Unpacker.ResolveKeymap | unpacker/src/unpacker.rs:44-52 | sets the keymap to `KeymapFrom` and changes nothing else |
| RustUnpackerNext.Unpacker.ResolveMethods | unpacker/src/unpacker.rs:53-83 | the lenient `ResolveMethodsOf`: panics exactly when it does; otherwise sets its table and returns `KeymapIndexError` with the operand |
| RustUnpackerNext.Unpacker.ResolveOrder | unpacker/src/unpacker.rs:84-107 | panics exactly when the lenient `ResolveOrderOf` does; otherwise sets its keymap, table and order and returns its error |
| RustUnpackerNext.Unpacker.ResolveBinaries | unpacker/src/unpacker.rs:108-118 | files the tags as `TableFrom` with the Rust key says and changes nothing else |
| RustUnpackerNext.Unpacker.WriteBinaries | unpacker/src/unpacker.rs:119-127 | returns the first order name without a binary, if any, and the payloads written before it |

## Left out

- Reading and parsing the movie and its ABC bytecode are not part of this
  model. This covers `read_movie`, the `Swf` reader, `Parser` and rabc's
  `parse`, and the errors these raise. An ABC file is given as a value.
- The C++ `download` and the URL and stream constructors of
  `Unpacker` are left out (lib/unpacker.cpp:6-35). They are network and stream I/O; only their
  effect, empty `order` and `binaries`, is kept.
- The `unpack` drivers (lib/unpacker.cpp:37-61, src/unpacker.rs:40-44,
  unpacker/src/unpacker.rs:38-42) only sequence the modelled steps and copy the
  writer's buffer.
- `size()` and the stream's ownership are left out.
- The command-line programs are not part of this model (src/main.cpp,
  src/main.rs and the CLI crate), and neither is the file-name helper in src/utils.cpp.
- The `std::ostream` and `StreamWriter` forms of `write_binaries`
  (lib/unpacker.cpp:136-156) write the same bytes. Both are modelled as one
  byte sequence, `Written`; the write itself and `IoError` are left out.
- The instruction list and iterator come from the bytecode library, which is
  not part of this model. The model assumes the following:
  - C++ `ins->next` is `nullptr` after the last instruction.
  - Rust `next()` stays at the end, and `get()` there panics.
  - The iterator starts at the first instruction of the method body.
  - `next()` returns `Some` exactly when the cursor it moves to is still
    inside the stream. This decides `self.prog.next().and(prop)` in
    `next_char`: a call-unit that ends the stream yields no id.
  - `skip_until(op)` and `skip_until_seq` check the current position first,
    and stop at the end when nothing matches. The keymap, `pushbyte` and
    `constructsuper` searches rely on this.
  - `is_sequence` needs both instructions present.
  - `has_next()` holds exactly while the cursor is inside the stream, so the
    `prog.has_next()` test before `skip_until(PushString)` (src/unpacker.rs:48,
    unpacker/src/unpacker.rs:46) adds nothing to the search and is left out of
    `RustResolve.KeymapFrom`. Were it `cursor + 1 < n`, a one-instruction
    `cinit` would yield no keymap.
  - `get_class(0)` fails exactly when the class list is empty (src/unpacker.rs:94,
    unpacker/src/unpacker.rs:85), and `get_method(i)` fails exactly when `i` is
    not below the number of methods (src/unpacker.rs:97, :100). The model
    records these as the failures `NoClass` and `NoMethod`, which both
    unpackers turn into `RabcError`.
- The older crate's `Error` type is not among the files. Its
  `Error::missing(..)` and `Error::IndexError()` are modelled from their uses in
  src/unpacker.rs. Two more variants stand for the errors that `?` converts:
  `RabcError` for the bytecode library's failures and `Utf8Error` for
  `String::from_utf8`. The new crate's `MissingError` and `UnpackerError` follow
  src/error.rs:7-29.
- `movie.symbols` of the Rust crates is taken to be the symbol-class table, or
  empty when the movie has none.
- CppResolve.MatchedRound, CppResolve.OrderMatchedStep, RustResolve.MatchedRound
  and RustResolve.OrderMatchedStep cover a chain of exactly as many ids as
  `writeBytes`. A longer chain whose first ten ids spell it makes
  `match_target` succeed in the middle of the chain, and the round then
  records the rest of that same chain. Only the `OrderRound` definitions
  cover that case; no lemma states it.
- In the C++ order loop, `methods[chr]` inserts a '\0' entry for an unmapped
  id, and `build` then decodes that id as '\0'. The lemmas about whole rounds
  (CppResolve.MatchedRound, SkippedRound, OrderMismatchStep) assume mapped
  chains. CppFinder.MatchInsertsZero covers the unmapped case for one match.
- Binary payloads are byte sequences. The tag objects and their aliasing
  in the C++ table are not kept.
- CppUnpacker.Unpacker.ResolveKeymap, CppUnpacker.Unpacker.ResolveMethods,
  CppUnpacker.Unpacker.MatchTarget, CppUnpacker.Unpacker.ResolveOrder and
  CppUnpacker.Unpacker.FindOrder require that the C++ code has defined
  behaviour on their input. Their specification function is `Some`. What the
  program does after undefined behaviour is not modelled.
- CppFinder.StringFinder.NextString, CppFinder.StringFinder.NextChar,
  CppFinder.StringFinder.SkipString, CppFinder.StringFinder.Build and
  CppFinder.StringFinder.Addr require the same, for the walker's
  dereferences of `ins`.
- CppFree.MatchTarget, CppFree.GetKeymap, CppFree.GetMethods,
  CppFree.FindOrder, CppFree.ResolveOrder and CppFree.GetBinaries require the
  same. GetBinaries requires a symbol class, which src/unpacker.cpp:87
  dereferences unchecked.
- RustResolve.SuperOrder and RustResolve.OrderLoop require a non-empty target.
  The unpackers always pass `writeBytes`.
- C++ `uint32_t` character ids and Rust `u32` ids are unbounded naturals.
  Nothing in the modelled code does arithmetic on them.
