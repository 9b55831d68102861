# Java class-file reader and string-concatenation axioms, in Dafny

This project models two parts of a program-analysis tool for Java:

- **The class-file reader** (`java_bytecode_parser.cpp`). It reads one class file from a byte stream. First come the header (magic number, minor and major version) and the constant pool. Then come the class and super-class names, the interfaces, fields and methods, and the class attributes. A `Code` attribute turns into a list of instructions with their addresses. The reader either fills a parse tree or stops with a message.
- **The concatenation part of the string constraint generator** (`string_constraint_generator_concat.cpp`). Each string-append primitive becomes a few axioms over symbolic strings. Each symbolic string is a length plus a character array. The axioms are appended to the generator's list, and the generator returns the result code 0.

Both parts are modelled in the source's own form:

- **Reader.** `JavaBytecodeParser.Parser` is a class. It holds the input, a cursor `pos`, the constant pool it fills in place, and the list of parsed classes. Each reading routine is a method with the source's loops. Each method is proved against a pure function in `ClassFileFormat` that says what reading from a given position yields. `ClassFileProperties` proves what the reader promises about those functions.
- **Generator.** `ConcatGenerator.Generator` is a class. It holds the list of axioms and the fresh-symbol counter. Each method's contract fixes the exact suffix it appends. `StringTerms` gives the axioms a meaning: `Satisfies` over models that assign values to integer symbols and arrays. `ConcatAxioms` proves what the appended axioms force on the strings.

Files:

- `bytes.dfy`: big-endian octet values.
- `classfile_format.dfy`: class-file layout as functions.
- `classfile_parser.dfy`: the reader class.
- `classfile_properties.dfy`: the reader's guarantees.
- `string_terms.dfy`: terms, axioms and their semantics.
- `concat_axioms.dfy`: the concatenation axioms and their meaning.
- `concat_generator.dfy`: the generator class and the call-node dispatchers.

## Model

| member | source | states |
|---|---|---|
| Bytes.ValueAtIsBigEndian | src/java_bytecode/java_bytecode_parser.cpp:84-94 | shifting in one octet at a time gives the big-endian value of the octets read |
| Bytes.BigEndianIsPositional | src/java_bytecode/java_bytecode_parser.cpp:84-94 | the value built by shifting in octets is the positional sum: each octet times 256 to the power of the number of octets after it |
| Bytes.BigEndianBound | src/java_bytecode/java_bytecode_parser.cpp:84-114 | the value of n octets is below 256^n, so a u1/u2/u4/u8 result loses nothing |
| ClassFileProperties.ReadOutcome | src/java_bytecode/java_bytecode_parser.cpp:84-114 | a read of n octets succeeds iff n octets remain; it yields their big-endian value, equal to the positional sum of the octets and below 256^n, and advances the cursor by n; otherwise it fails with "unexpected end of input file" |
| ClassFileProperties.ClassFileHeader | src/java_bytecode/java_bytecode_parser.cpp:184-192 | all eight header octets are read before any check; fewer than eight give end of input; a bad magic gives "wrong magic"; a good magic with a major version below 44 gives "unexpected major version" |
| ClassFileProperties.PoolEntriesShape | src/java_bytecode/java_bytecode_parser.cpp:252-351 | the pool loop fills exactly the remaining slots, one per entry whatever its tag (Long and Double too), and keeps the earlier slots |
| ClassFileProperties.ConstantPoolShape | src/java_bytecode/java_bytecode_parser.cpp:250-260 | a count of 0 fails with "invalid constant_pool_count"; otherwise the pool has exactly `count` slots and slot 0 stays empty |
| ClassFileProperties.FixedEntrySize | src/java_bytecode/java_bytecode_parser.cpp:262-349 | a known tag other than Utf8 has a fixed entry size: 3 for Class, String and MethodType; 4 for MethodHandle; 5 for the references, NameAndType, Integer, Float and InvokeDynamic; 9 for Long and Double |
| ClassFileProperties.ReadFieldsWidth | src/java_bytecode/java_bytecode_parser.cpp:265-345 | reading an entry's fixed-width fields succeeds iff they fit, and consumes their total width |
| ClassFileProperties.LayoutInFinds | src/java_bytecode/java_bytecode_parser.cpp:263-349 | the tag switch finds a case iff some case carries the tag, and what it finds is that case |
| ClassFileProperties.TagLayoutRows | src/java_bytecode/java_bytecode_parser.cpp:265-345 | every case of the tag switch is a known tag, only the Utf8 case is variable-length, and every other case reads its fixed size |
| ClassFileProperties.LayoutOfKnown | src/java_bytecode/java_bytecode_parser.cpp:263-349 | the switch has a case for exactly the fourteen known tags |
| ClassFileProperties.ConstantEntrySize | src/java_bytecode/java_bytecode_parser.cpp:262-349 | an unknown tag fails with "unknown constant pool entry (tag)"; a fixed-size entry succeeds iff it fits and consumes its size; a Utf8 entry is a two-octet length plus that many octets, which become its identifier |
| ClassFileProperties.InstructionsLayout | src/java_bytecode/java_bytecode_parser.cpp:434-475 | walking the code gives one instruction per opcode, at increasing addresses inside the code, the first at the start; each mnemonic is the table's; each next address is one past the operands (0, 1, 2 or 4 octets by format); the last operands reach the end of the code |
| ClassFileProperties.BytecodeLayout | src/java_bytecode/java_bytecode_parser.cpp:423-476 | reading a code array succeeds iff `length` octets remain and consumes exactly them; earlier instructions are kept, and the appended ones are one per opcode at increasing addresses inside the code from 0, each with the table's mnemonic, each next address one past the operands, and the last operands reaching the end of the code |
| ClassFileProperties.OtherAttributeSize | src/java_bytecode/java_bytecode_parser.cpp:490-495 | a member attribute other than `Code` occupies 6 octets plus its declared length and adds no instructions |
| ClassFileProperties.CodeAttributeLayout | src/java_bytecode/java_bytecode_parser.cpp:497-519 | a `Code` attribute reads 18 + code length + 8 × handlers octets, fails with end of input when they are missing, and then reads its nested attributes with the code's instructions appended |
| ClassFileProperties.ClassAttributeSize | src/java_bytecode/java_bytecode_parser.cpp:544-554 | a class attribute occupies 6 octets plus its declared length |
| ClassFileProperties.FieldListShape | src/java_bytecode/java_bytecode_parser.cpp:386-407 | the field loop appends exactly `count` members after the existing ones, none a method |
| ClassFileProperties.MethodListShape | src/java_bytecode/java_bytecode_parser.cpp:568-616 | the method loop appends exactly `count` members after the existing ones, all methods |
| ClassFileProperties.InterfaceListShape | src/java_bytecode/java_bytecode_parser.cpp:366-372 | each two-octet interface index must designate a used pool slot; what is appended is the identifier of that entry itself; the list grows by exactly `count` |
| ClassFileProperties.ClassMembersOrdered | src/java_bytecode/java_bytecode_parser.cpp:209-211 | in a class read successfully, every field comes before every method |
| ClassFileFormat.ExceptionTable | src/java_bytecode/java_bytecode_parser.cpp:505-513 | the exception table succeeds iff 8 × count octets remain, consumes exactly them, and otherwise fails with end of input |
| JavaBytecodeParser.Parser.ReadBytes | src/java_bytecode/java_bytecode_parser.cpp:84-94 | the octet loop yields what `Read` prescribes and moves the cursor to match |
| JavaBytecodeParser.Parser.Constant | src/java_bytecode/java_bytecode_parser.cpp:55-60 | fails with "invalid constant pool index" iff the index is 0 or past the pool; otherwise yields that slot |
| JavaBytecodeParser.Parser.RConstantEntry | src/java_bytecode/java_bytecode_parser.cpp:262-349 | the tag switch for one entry yields what `ConstantEntry` prescribes |
| JavaBytecodeParser.Parser.RRecord | src/java_bytecode/java_bytecode_parser.cpp:265-345 | an entry's fields, read in order and set as read, are what `ReadFields` prescribes |
| JavaBytecodeParser.Parser.RUtf8 | src/java_bytecode/java_bytecode_parser.cpp:319-328 | the Utf8 case's length and octet loop yield what `Utf8Entry` prescribes |
| JavaBytecodeParser.Parser.RConstantPool | src/java_bytecode/java_bytecode_parser.cpp:248-260 | reading the count and filling the resized pool in place leaves exactly the pool `ConstantPool` prescribes, or its failure |
| JavaBytecodeParser.Parser.RPoolEntries | src/java_bytecode/java_bytecode_parser.cpp:254-351 | the iterator loop fills slots 1 .. count-1 in place as `PoolEntries` prescribes |
| JavaBytecodeParser.Parser.RInterfaces | src/java_bytecode/java_bytecode_parser.cpp:366-372 | the interface loop appends what `Interfaces` prescribes |
| JavaBytecodeParser.Parser.RRaw | src/java_bytecode/java_bytecode_parser.cpp:523-528 | the octets read one at a time into a sized buffer are the next `n` octets of the input |
| JavaBytecodeParser.Parser.RBytecode | src/java_bytecode/java_bytecode_parser.cpp:423-476 | filling the code array and walking it by address appends exactly the instructions `Bytecode` prescribes |
| JavaBytecodeParser.Parser.RExceptionTable | src/java_bytecode/java_bytecode_parser.cpp:505-513 | the handler loop consumes what `ExceptionTable` prescribes |
| JavaBytecodeParser.Parser.RMemberAttribute | src/java_bytecode/java_bytecode_parser.cpp:490-530 | one member attribute, `Code` or other, reads as `MemberAttribute` prescribes |
| JavaBytecodeParser.Parser.RCode | src/java_bytecode/java_bytecode_parser.cpp:497-519 | the `Code` branch reads as `CodeAttribute` prescribes, nested attributes included |
| JavaBytecodeParser.Parser.RMemberAttributes | src/java_bytecode/java_bytecode_parser.cpp:515-518 | the attribute loop reads as `MemberAttributes` prescribes |
| JavaBytecodeParser.Parser.RField | src/java_bytecode/java_bytecode_parser.cpp:392-405 | one field yields the member `Field` prescribes |
| JavaBytecodeParser.Parser.RFields | src/java_bytecode/java_bytecode_parser.cpp:386-407 | the field table appends the members `Fields` prescribes |
| JavaBytecodeParser.Parser.RFieldList | src/java_bytecode/java_bytecode_parser.cpp:390-406 | the field loop appends the members `FieldList` prescribes |
| JavaBytecodeParser.Parser.RMethod | src/java_bytecode/java_bytecode_parser.cpp:599-616 | one method yields the member `Method` prescribes |
| JavaBytecodeParser.Parser.RMethods | src/java_bytecode/java_bytecode_parser.cpp:568-574 | the method table appends the members `Methods` prescribes |
| JavaBytecodeParser.Parser.RMethodList | src/java_bytecode/java_bytecode_parser.cpp:572-573 | the method loop appends the members `MethodList` prescribes |
| JavaBytecodeParser.Parser.RClassAttribute | src/java_bytecode/java_bytecode_parser.cpp:544-554 | one class attribute is consumed as `ClassAttribute` prescribes |
| JavaBytecodeParser.Parser.RClassAttributes | src/java_bytecode/java_bytecode_parser.cpp:213-216 | the class-attribute loop consumes what `ClassAttributes` prescribes |
| JavaBytecodeParser.Parser.RClassBody | src/java_bytecode/java_bytecode_parser.cpp:196-216 | the just-appended class is filled in place to the class `ClassBody` prescribes; earlier classes are unchanged |
| JavaBytecodeParser.Parser.RClassFile | src/java_bytecode/java_bytecode_parser.cpp:184-217 | succeeds iff `ClassFile` does; then exactly one class, the prescribed one, is appended; on failure it carries the same message; earlier classes are never changed |
| JavaBytecodeParser.Parser.Parse | src/java_bytecode/java_bytecode_parser.cpp:129-155 | returns true exactly when reading failed, with the failure's message; otherwise the parse tree gained exactly the class read |
| JavaBytecodeParser.JavaBytecodeParse | src/java_bytecode/java_bytecode_parser.cpp:630-653 | reports failure iff the class file is malformed; on success hands back exactly the one class read |
| ConcatAxioms.LengthAxioms | src/solvers/refinement/string_constraint_generator_concat.cpp:43-51 | a1 and a2 together hold iff \|res\| = \|s1\| + (end − start) when end > start, and \|res\| = \|s1\| otherwise |
| ConcatAxioms.PrefixAxiom | src/solvers/refinement/string_constraint_generator_concat.cpp:53-55 | a3 holds iff the first \|s1\| cells of res are those of s1 |
| ConcatAxioms.TailAxiom | src/solvers/refinement/string_constraint_generator_concat.cpp:57-61 | a4 holds iff, for i < end − start, res[\|s1\| + i] = s2[start + i], provided the bound index is fresh |
| ConcatAxioms.ConcatSubstrSemantics | src/solvers/refinement/string_constraint_generator_concat.cpp:30-65 | a model satisfies the four axioms iff the length law, the prefix and the appended range all hold in it |
| ConcatAxioms.ConcatSubstrLength | src/solvers/refinement/string_constraint_generator_concat.cpp:38-51 | in every model of the axioms, end > start gives \|res\| = \|s1\| + (end − start), and end ≤ start gives \|res\| = \|s1\| |
| ConcatAxioms.ConcatSubstrInRange | src/solvers/refinement/string_constraint_generator_concat.cpp:16-19 | when 0 ≤ start ≤ end ≤ \|s2\|, the axioms hold iff res = s1 ++ s2[start..end) |
| ConcatAxioms.ConcatSubstrEmptyRange | src/solvers/refinement/string_constraint_generator_concat.cpp:20 | when start ≥ end, every model of the axioms has res = s1 |
| ConcatAxioms.ConcatSubstrPadding | src/solvers/refinement/string_constraint_generator_concat.cpp:21-23 | whatever the range, and also when s1 and s2 are the same string, once res has the length the axioms ask for, new arrays alone make the axioms hold; they keep the cells of s1 and of s2 inside their lengths, keep all of s1 when it is a different array, and give the appended cells that fall outside s2 any chosen values |
| ConcatAxioms.ConcatCharSemantics | src/solvers/refinement/string_constraint_generator_concat.cpp:73-97 | the three character axioms hold iff res = s1 ++ [c] |
| ConcatAxioms.ConcatSemantics | src/solvers/refinement/string_constraint_generator_concat.cpp:104-111 | the axioms for the range [0, \|s2\|) hold iff res = s1 ++ s2 |
| ConcatGenerator.ConcatCallMeaning | src/solvers/refinement/string_constraint_generator_concat.cpp:125-134 | a four-argument call node appends axioms that hold iff res = s1 ++ s2 |
| ConcatGenerator.RangeConcatCallMeaning | src/solvers/refinement/string_constraint_generator_concat.cpp:113-119 | with the range read from the last two arguments, a six-argument call holds iff res = s1 ++ s2[start..end), for a range inside s2 |
| ConcatGenerator.ConcatCallIgnoresRange | src/solvers/refinement/string_constraint_generator_concat.cpp:131-132 | as written, six-argument calls with ranges (0, 0) and (0, 1) append identical axioms, although no model meets both intended results |
| ConcatGenerator.CodePointCallMeaning | src/solvers/refinement/string_constraint_generator_concat.cpp:157-170 | the code-point call's axioms hold iff the code-point generator's axioms for the fresh string hold and res = s1 ++ that string |
| ConcatGenerator.Generator.FreshIndex | src/solvers/refinement/string_constraint_generator_concat.cpp:53 | returns a name built from the current counter value under the given hint and increases the counter, so later calls build their names from larger values |
| ConcatGenerator.Generator.FreshString | src/solvers/refinement/string_constraint_generator_concat.cpp:166 | returns a string whose length symbol and array are built from the counter values n and n + 1, and increases the counter by 2 |
| ConcatGenerator.Generator.CodePoint | src/solvers/refinement/string_constraint_generator_concat.cpp:167-168 | appends the code-point generator's axioms and changes nothing else |
| ConcatGenerator.Generator.ConcatSubstr | src/solvers/refinement/string_constraint_generator_concat.cpp:30-65 | appends exactly a1..a4, in order, after the earlier axioms, which stay unchanged; uses two fresh indices; returns 0 |
| ConcatGenerator.Generator.ConcatChar | src/solvers/refinement/string_constraint_generator_concat.cpp:73-97 | appends exactly the three character axioms, in order; uses one fresh index; returns 0 |
| ConcatGenerator.Generator.Concat | src/solvers/refinement/string_constraint_generator_concat.cpp:104-111 | appends exactly what the ranged concatenation appends for the range [0, \|s2\|); returns 0 |
| ConcatGenerator.Generator.ConcatCall | src/solvers/refinement/string_constraint_generator_concat.cpp:123-135 | accepts 4 or 6 arguments; with 6 it goes through the ranged concatenation with the third and fourth arguments as range, with 4 through plain concatenation; returns 0 |
| ConcatGenerator.Generator.RangeConcatCall | src/solvers/refinement/string_constraint_generator_concat.cpp:113-135 | as `ConcatCall`, but a six-argument call takes its range from the fifth and sixth arguments |
| ConcatGenerator.Generator.ConcatCharCall | src/solvers/refinement/string_constraint_generator_concat.cpp:143-152 | accepts exactly 4 arguments and appends the character axioms for the string and character arguments; returns 0 |
| ConcatGenerator.Generator.ConcatCodePointCall | src/solvers/refinement/string_constraint_generator_concat.cpp:157-170 | accepts exactly 4 arguments; appends the code-point axioms for a fresh string, then its concatenation to the string argument; returns the concatenation's 0 |

## Left out

- JavaBytecodeParser.Parser.ReadBytes: fails as soon as fewer than n octets remain. The source tests the stream's state before each `get()`. So the first octet requested past the end is read as end-of-file (all bits set in the result), and only the next read fails. The model does not reproduce that one-octet overrun.
- JavaBytecodeParser.Parser.Parse: on failure, the parse tree the source keeps holds whatever was appended before the error. The model only bounds it: at most one new class, and earlier classes unchanged. Partly filled classes and members are not described.
- JavaBytecodeParser.Parser.RClassFile and Parse: they require a fresh reader (cursor at 0, empty pool), which is how the source uses them.
- File opening, the "failed to open input file" path, and the swap of the parse tree into the caller's are I/O. `JavaBytecodeParse` takes the file's contents as a sequence of octets.
- Where the messages are sent is left out. The `catch(...)` "parsing error" path is also left out. The source sizes its code buffer (`code.resize`) and attribute buffers (`info.resize`) from untrusted four-octet lengths; an allocation that fails there throws, and the source reports "parsing error". The model has unbounded memory: it reads those octets and fails with "unexpected end of input file" when they are missing.
- The debug trace printed for every instruction is output only.
- The opcode table's contents (mnemonics and operand formats) come from a table that is not part of this model. It is a parameter: any 256-entry table.
- Operand values in the bytecode walk are computed and then dropped. At the end of the code they index past the array. Only the address skip is modelled.
- The instruction address is an unsigned 32-bit counter. Its wrap-around needs at least 4 GiB of code and is not modelled.
- The `Code` attribute's declared length is read and never consulted. The model reads the attribute by its contents, as the source does.
- Two choices follow the code rather than the Java class-file format. A Long or Double pool entry takes one slot, not two. An interface is recorded by the identifier of the pool entry its index designates, not by the class name that entry refers to.
- Parts of the pool entries' representation are not modelled: the exact field names and identifiers. The source stores each field with `irept::set`, which keeps the number as text in the parse tree; the model keeps it as an integer. The decimal rendering in the unknown-tag message is modelled (`DecimalString`). `src/util/format_constant.cpp` is not part of this model.
- All index arithmetic in the concatenation axioms is modelled as unbounded integers: the sums and differences built with `plus_exprt` and `minus_exprt` over the index type (end - start, idx2 + |s1|, start + idx2) and `plus_exprt_with_overflow_check`. Overflow of the index type is not modelled. For example, with end the largest index and start the smallest, end - start wraps to a negative value in the source, while `ConcatSubstrLength` gives |res| = |s1| + (end - start). Whatever overflow guard `plus_exprt_with_overflow_check` adds is not part of this model.
- `fresh_univ_index` and `fresh_string` are modelled as names drawn from one counter. Anything else `fresh_string` records is not modelled.
- `get_string_expr` and `char_array_of_pointer` are modelled as reading the string, pointer and length arguments. Their bodies are not part of this model.
- The dispatchers require each argument to be of the kind its position calls for: length, result pointer, string, then character for the character call. Call nodes of another shape are not modelled.
- An argument used where an integer is expected (`Mistyped`) gets a value a model chooses freely. How the solver really treats such a term is not modelled.
- `add_axioms_for_code_point` is a parameter of the generator: the axioms it emits for a string and a code point. Its result code is dropped, as in the source. A character term can cast an integer to a 16-bit code unit (`CodeUnitOf`), but integer terms have no multiplication or division, so the split of a code point at or above 0x10000 into a surrogate pair cannot be written with them. Which axioms `add_axioms_for_code_point` emits is not part of this model.
- Characters are 16-bit UTF-16 code units (`CodeUnit`, 0 to 0xFFFF, surrogate halves included), as Java's `char`.
- ConcatAxioms.ConcatSubstrPadding: when `s1` and `s2` share one array, it requires them to have the same length term, as they do when one string is passed twice (`s.concat(s)`). Two strings that share an array under different length terms are not covered; `get_string_expr` does not produce them.
- The solver itself is not modelled. Satisfaction is a predicate over concrete models, and sharing of terms is not represented.

## Findings

| source | as written | input that shows it | evidently intended | confidence | as-written member | corrected member |
|---|---|---|---|---|---|---|
| src/solvers/refinement/string_constraint_generator_concat.cpp:131-132 | a six-argument call passes `args[2]` and `args[3]`, the two string arguments, as start and end index; the fifth and sixth arguments are never read | two six-argument calls over the same strings with ranges (0, 0) and (0, 1): they append identical axioms, but the intended results differ in length by one | the range is the last two arguments, `args[4]` and `args[5]`, as the documentation at lines 116-119 says | not executed | ConcatGenerator.Generator.ConcatCall, ConcatGenerator.ConcatCallIgnoresRange | ConcatGenerator.Generator.RangeConcatCall, ConcatGenerator.RangeConcatCallMeaning |
