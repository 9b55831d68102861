/** What the class-file reader guarantees, stated over the functions of ClassFileFormat:
    how a read behaves at the end of input, the order of the header checks, the shape of
    the constant pool and the size of each kind of entry, how a code array becomes
    instructions, how much input each attribute occupies, and how the members of a class
    are laid out. */
module ClassFileProperties {
  import opened Bytes
  import opened ClassFileFormat

  /** read_bytes: succeeds exactly when `n` octets remain, yields their big-endian value
      (the sum of each octet times 256 to the power of the octets after it), which fits in
      `n` octets (so nothing is lost in a u1/u2/u4/u8 result), and advances the cursor by
      `n`; otherwise it fails with the end-of-input message. */
  lemma ReadOutcome(input: seq<Byte>, pos: nat, n: nat)
    ensures Read(input, pos, n).Ok? <==> pos + n <= |input|
    ensures Read(input, pos, n).Fail? ==> Read(input, pos, n).msg == EndOfInput
    ensures Read(input, pos, n).Ok? ==>
      && Read(input, pos, n).value.next == pos + n
      && Read(input, pos, n).value.v == BigEndian(input[pos..pos + n])
      && Read(input, pos, n).value.v == PositionalSum(input[pos..pos + n])
      && Read(input, pos, n).value.v < Pow256(n)
  {
    if pos + n <= |input| {
      ValueAtIsBigEndian(input, pos, n);
      BigEndianIsPositional(input[pos..pos + n]);
      BigEndianBound(input[pos..pos + n]);
    }
  }

  /** rClassFile reads magic, minor and major version (eight octets) before checking any of
      them; the magic number is checked before the major version. */
  lemma ClassFileHeader(input: seq<Byte>, table: BytecodeTable)
    ensures |input| < 8 ==> ClassFile(input, table) == Fail(EndOfInput)
    ensures |input| >= 8 && BigEndian(input[..4]) != Magic ==> ClassFile(input, table) == Fail(WrongMagic)
    ensures |input| >= 8 && BigEndian(input[..4]) == Magic && BigEndian(input[6..8]) < MinMajorVersion
      ==> ClassFile(input, table) == Fail(BadMajorVersion)
  {
    if |input| >= 8 {
      ValueAtIsBigEndian(input, 0, 4);
      ValueAtIsBigEndian(input, 6, 2);
      assert input[0..4] == input[..4];
    }
  }

  /** The constant pool reader fills exactly `count - 1` slots after the unused slot 0,
      whatever tags they carry: a Long or Double entry takes one slot here. */
  lemma {:induction false} PoolEntriesShape(input: seq<Byte>, pos: nat, k: nat, acc: seq<Entry>)
    requires pos <= |input|
    ensures var r := PoolEntries(input, pos, k, acc);
      r.Ok? ==> |r.value.v| == |acc| + k && r.value.v[..|acc|] == acc
    decreases k
  {
    if k > 0 {
      var e := ConstantEntry(input, pos);
      if e.Ok? {
        PoolEntriesShape(input, e.value.next, k - 1, acc + [e.value.v]);
        var r := PoolEntries(input, e.value.next, k - 1, acc + [e.value.v]);
        if r.Ok? {
          assert r.value.v[..|acc|] == (r.value.v[..|acc| + 1])[..|acc|];
        }
      }
    }
  }

  /** rconstant_pool: a count of zero is refused; otherwise the pool has `count` slots and
      slot 0 is left empty. */
  lemma ConstantPoolShape(input: seq<Byte>, pos: nat)
    requires pos + 2 <= |input|
    ensures ValueAt(input, pos, 2) == 0 ==> ConstantPool(input, pos) == Fail(BadPoolCount)
    ensures ConstantPool(input, pos).Ok? ==>
      && |ConstantPool(input, pos).value.v| == ValueAt(input, pos, 2)
      && ConstantPool(input, pos).value.v[0] == EmptyEntry
  {
    var count := ValueAt(input, pos, 2);
    if count > 0 {
      PoolEntriesShape(input, pos + 2, count - 1, [EmptyEntry]);
    }
  }

  /** The tags the reader knows. */
  const KnownTags: set<nat> := {TagUtf8, TagInteger, TagFloat, TagLong, TagDouble, TagClass, TagString,
    TagFieldref, TagMethodref, TagInterfaceMethodref, TagNameAndType, TagMethodHandle,
    TagMethodType, TagInvokeDynamic}

  /** The size in octets, tag included, of an entry whose size does not depend on its
      contents: every known tag except Utf8. */
  function FixedEntrySize(tag: nat): (size: Option<nat>)
    ensures size.Some? <==> tag in KnownTags && tag != TagUtf8
  {
    if tag == TagClass || tag == TagString || tag == TagMethodType then Some(3)
    else if tag == TagMethodHandle then Some(4)
    else if tag == TagFieldref || tag == TagMethodref || tag == TagInterfaceMethodref
         || tag == TagNameAndType || tag == TagInteger || tag == TagFloat || tag == TagInvokeDynamic then Some(5)
    else if tag == TagLong || tag == TagDouble then Some(9)
    else None
  }

  /** The octets a list of fixed-width fields occupies. */
  function FieldsWidth(fields: seq<(string, nat)>): nat
  {
    if |fields| == 0 then 0 else fields[0].1 + FieldsWidth(fields[1..])
  }

  /** Reading fixed-width fields succeeds exactly when they fit and consumes their width. */
  lemma {:induction false} ReadFieldsWidth(input: seq<Byte>, pos: nat, fields: seq<(string, nat)>, acc: map<string, int>)
    requires pos <= |input|
    ensures var r := ReadFields(input, pos, fields, acc);
      && (r.Ok? <==> pos + FieldsWidth(fields) <= |input|)
      && (r.Ok? ==> r.value.next == pos + FieldsWidth(fields))
      && (r.Fail? ==> r.msg == EndOfInput)
    decreases |fields|
  {
    if |fields| > 0 {
      var x := Read(input, pos, fields[0].1);
      if x.Ok? {
        ReadFieldsWidth(input, x.value.next, fields[1..], acc[fields[0].0 := x.value.v]);
      }
    }
  }

  /** The octets an entry of the given layout occupies after its tag, when that does not
      depend on its contents. */
  function LayoutWidth(layout: Layout): nat
  {
    match layout
    case Record(_, fields) => FieldsWidth(fields)
    case Wide(_) => 8
    case Utf8 => 0
  }

  /** A lookup in a tag table finds an entry exactly when some row carries the tag, and what
      it finds is the layout of such a row. */
  lemma {:induction false} LayoutInFinds(cases: seq<(nat, Layout)>, tag: nat)
    ensures LayoutIn(cases, tag).Some? <==> exists i :: 0 <= i < |cases| && cases[i].0 == tag
    ensures LayoutIn(cases, tag).Some? ==>
      exists i :: 0 <= i < |cases| && cases[i] == (tag, LayoutIn(cases, tag).value)
  {
    if |cases| > 0 && cases[0].0 != tag {
      LayoutInFinds(cases[1..], tag);
      assert forall i :: 1 <= i < |cases| ==> cases[i] == cases[1..][i - 1];
      if LayoutIn(cases, tag).Some? {
        var j :| 0 <= j < |cases[1..]| && cases[1..][j] == (tag, LayoutIn(cases, tag).value);
        assert cases[j + 1] == (tag, LayoutIn(cases, tag).value);
      }
    } else if |cases| > 0 {
      assert cases[0] == (tag, LayoutIn(cases, tag).value);
    }
  }

  /** Every row of the reader's tag switch: its tag is known, only the Utf8 row has the
      Utf8 layout, and every other row reads as many octets as its fixed size. */
  lemma TagLayoutRows()
    ensures forall i :: 0 <= i < |TagLayouts| ==>
      && TagLayouts[i].0 in KnownTags
      && (TagLayouts[i].1.Utf8? <==> TagLayouts[i].0 == TagUtf8)
      && (!TagLayouts[i].1.Utf8? ==> FixedEntrySize(TagLayouts[i].0) == Some(1 + LayoutWidth(TagLayouts[i].1)))
  {
    assert FieldsWidth([("name", 2)]) == 2;
    assert FieldsWidth([("index", 2)]) == 2;
    assert FieldsWidth([("value", 4)]) == 4;
    assert FieldsWidth([("class", 2), ("name", 2)]) == 4;
    assert FieldsWidth([("name", 2), ("type", 2)]) == 4;
    assert FieldsWidth([("kind", 1), ("index", 2)]) == 3;
    assert FieldsWidth([("bootstrap_method_attr", 2), ("nameandtype", 2)]) == 4;
  }

  /** The tag switch has a case for exactly the known tags. */
  lemma LayoutOfKnown(tag: nat)
    ensures LayoutOf(tag).Some? <==> tag in KnownTags
  {
    LayoutInFinds(TagLayouts, tag);
    TagLayoutRows();
    if tag == TagClass { assert TagLayouts[0].0 == tag; }
    else if tag == TagFieldref { assert TagLayouts[1].0 == tag; }
    else if tag == TagMethodref { assert TagLayouts[2].0 == tag; }
    else if tag == TagInterfaceMethodref { assert TagLayouts[3].0 == tag; }
    else if tag == TagString { assert TagLayouts[4].0 == tag; }
    else if tag == TagInteger { assert TagLayouts[5].0 == tag; }
    else if tag == TagFloat { assert TagLayouts[6].0 == tag; }
    else if tag == TagLong { assert TagLayouts[7].0 == tag; }
    else if tag == TagDouble { assert TagLayouts[8].0 == tag; }
    else if tag == TagNameAndType { assert TagLayouts[9].0 == tag; }
    else if tag == TagUtf8 { assert TagLayouts[10].0 == tag; }
    else if tag == TagMethodHandle { assert TagLayouts[11].0 == tag; }
    else if tag == TagMethodType { assert TagLayouts[12].0 == tag; }
    else if tag == TagInvokeDynamic { assert TagLayouts[13].0 == tag; }
  }

  /** One constant-pool entry: an unknown tag fails with a message naming the tag; an entry of
      fixed size succeeds exactly when that many octets remain and consumes them; a Utf8
      entry is a two-octet length and that many octets, which become its identifier. */
  lemma ConstantEntrySize(input: seq<Byte>, pos: nat)
    requires pos < |input|
    ensures var tag := input[pos]; var r := ConstantEntry(input, pos);
      && (tag !in KnownTags ==> r == Fail(UnknownTag(tag)))
      && (FixedEntrySize(tag).Some? ==>
            && (r.Ok? <==> pos + FixedEntrySize(tag).value <= |input|)
            && (r.Ok? ==> r.value.next == pos + FixedEntrySize(tag).value)
            && (r.Fail? ==> r.msg == EndOfInput))
      && (tag == TagUtf8 && pos + 3 > |input| ==> r == Fail(EndOfInput))
      && (tag == TagUtf8 && pos + 3 <= |input| ==>
            var length := ValueAt(input, pos + 1, 2);
            && (r.Ok? <==> pos + 3 + length <= |input|)
            && (r.Fail? ==> r.msg == EndOfInput)
            && (r.Ok? ==>
                  && r.value.next == pos + 3 + length
                  && r.value.v.attrs == map[]
                  && |r.value.v.id| == length
                  && forall i :: 0 <= i < length ==> r.value.v.id[i] == input[pos + 3 + i] as char))
  {
    var tag := input[pos];
    ValueAtSingle(input, pos);
    LayoutOfKnown(tag);
    LayoutInFinds(TagLayouts, tag);
    TagLayoutRows();
    match LayoutOf(tag)
    case None =>
    case Some(layout) =>
      if layout.Record? {
        ReadFieldsWidth(input, pos + 1, layout.fields, map[]);
      }
  }

  /** rbytecode: walking a code array from `address` yields one instruction per opcode, in
      increasing address order, every address inside the array, the first at `address`; the
      mnemonic is the table's entry for the opcode, and each next address is one past the
      opcode's operands. The last instruction's operands reach the end of the array or beyond. */
  lemma {:induction false} InstructionsLayout(table: BytecodeTable, code: seq<Byte>, address: nat)
    ensures var r := Instructions(table, code, address);
      && (address >= |code| ==> r == [])
      && (address < |code| ==> 0 < |r| <= |code| - address && r[0].address == address)
      && (forall i :: 0 <= i < |r| ==>
            && address <= r[i].address < |code|
            && r[i].statement == table[code[r[i].address]].mnemonic)
      && (forall i :: 0 <= i < |r| - 1 ==>
            r[i + 1].address == r[i].address + 1 + OperandBytes(table[code[r[i].address]].format))
      && (|r| > 0 ==> r[|r| - 1].address + 1 + OperandBytes(table[code[r[|r| - 1].address]].format) >= |code|)
    decreases |code| - address
  {
    if address < |code| {
      var next := address + 1 + OperandBytes(table[code[address]].format);
      InstructionsLayout(table, code, next);
      var rest := Instructions(table, code, next);
      var r := Instructions(table, code, address);
      assert r == [Instruction(table[code[address]].mnemonic, address)] + rest;
      assert forall i :: 1 <= i < |r| ==> r[i] == rest[i - 1];
    }
  }

  /** rbytecode: reading a code array of `length` octets succeeds exactly when they remain and
      consumes exactly them; the instructions already gathered are kept, and the ones appended
      are the walk of the code from address 0: one per opcode, at increasing addresses inside
      the code starting at 0, each with the table's mnemonic for its opcode and each next
      address one past the opcode's operands, until the last opcode's operands reach the end
      of the code. */
  lemma BytecodeLayout(input: seq<Byte>, table: BytecodeTable, pos: nat, length: nat, acc: seq<Instruction>)
    ensures var r := Bytecode(input, table, pos, length, acc);
      && (r.Ok? <==> pos + length <= |input|)
      && (r.Ok? ==>
            var code := input[pos..pos + length];
            var ins := r.value.v[|acc|..];
            && r.value.next == pos + length
            && |r.value.v| >= |acc| && r.value.v[..|acc|] == acc
            && (length > 0 ==> 0 < |ins| <= length && ins[0].address == 0)
            && (length == 0 ==> ins == [])
            && (forall i :: 0 <= i < |ins| ==>
                  && ins[i].address < length
                  && ins[i].statement == table[code[ins[i].address]].mnemonic)
            && (forall i :: 0 <= i < |ins| - 1 ==>
                  ins[i + 1].address == ins[i].address + 1 + OperandBytes(table[code[ins[i].address]].format))
            && (|ins| > 0 ==>
                  ins[|ins| - 1].address + 1 + OperandBytes(table[code[ins[|ins| - 1].address]].format) >= length))
  {
    var r := Bytecode(input, table, pos, length, acc);
    if r.Ok? {
      var code := input[pos..pos + length];
      InstructionsLayout(table, code, 0);
      assert r.value.v[|acc|..] == Instructions(table, code, 0);
    }
  }

  /** A member attribute other than `Code` occupies six octets of header plus its declared
      length and contributes no instructions. */
  lemma OtherAttributeSize(input: seq<Byte>, pool: seq<Entry>, table: BytecodeTable, pos: nat, acc: seq<Instruction>)
    requires pos + 6 <= |input|
    requires var index := ValueAt(input, pos, 2); 0 < index < |pool| && pool[index].id != "Code"
    ensures var r := MemberAttribute(input, pool, table, pos, acc); var length := ValueAt(input, pos + 2, 4);
      && (r.Ok? <==> pos + 6 + length <= |input|)
      && (r.Ok? ==> r.value == Got(acc, pos + 6 + length))
  {
  }

  /** A `Code` attribute: after its six-octet header come maximum stack and locals (four
      octets), the code length (four), the code, the exception-table length (two), eight
      octets per handler, and the nested attribute count (two) — 18 + code length + 8 x
      handlers octets in all before the nested attributes, which read on from there with the
      code's instructions appended. The declared attribute length plays no part. */
  lemma CodeAttributeLayout(input: seq<Byte>, pool: seq<Entry>, table: BytecodeTable, pos: nat, acc: seq<Instruction>)
    requires pos + 8 <= |input|
    ensures var codeLength := ValueAt(input, pos + 4, 4);
      && (pos + 10 + codeLength > |input| ==> CodeAttribute(input, pool, table, pos, acc) == Fail(EndOfInput))
      && (pos + 10 + codeLength <= |input| ==>
            var handlers := ValueAt(input, pos + 8 + codeLength, 2);
            var nested := pos + 12 + codeLength + 8 * handlers;
            && (nested > |input| ==> CodeAttribute(input, pool, table, pos, acc) == Fail(EndOfInput))
            && (nested <= |input| ==>
                  CodeAttribute(input, pool, table, pos, acc)
                  == MemberAttributes(input, pool, table, nested, ValueAt(input, nested - 2, 2),
                                      acc + Instructions(table, input[pos + 8..pos + 8 + codeLength], 0))))
  {
    var codeLength := ValueAt(input, pos + 4, 4);
    assert Read(input, pos, 2) == Ok(Got(ValueAt(input, pos, 2), pos + 2));
    assert Read(input, pos + 2, 2) == Ok(Got(ValueAt(input, pos + 2, 2), pos + 4));
    assert Read(input, pos + 4, 4) == Ok(Got(codeLength, pos + 8));
    var code := Bytecode(input, table, pos + 8, codeLength, acc);
    if pos + 10 + codeLength <= |input| {
      var handlers := ValueAt(input, pos + 8 + codeLength, 2);
      assert code == Ok(Got(acc + Instructions(table, input[pos + 8..pos + 8 + codeLength], 0), pos + 8 + codeLength));
      assert Read(input, pos + 8 + codeLength, 2) == Ok(Got(handlers, pos + 10 + codeLength));
      var nested := pos + 12 + codeLength + 8 * handlers;
      var exceptions := ExceptionTable(input, pos + 10 + codeLength, handlers);
      assert exceptions.Ok? <==> nested - 2 <= |input|;
      assert exceptions.Ok? ==> exceptions.value.next == nested - 2;
      if nested <= |input| {
        assert Read(input, nested - 2, 2) == Ok(Got(ValueAt(input, nested - 2, 2), nested));
      } else if pos + 10 + codeLength + 8 * handlers > |input| {
        assert exceptions.Fail?;
      } else {
        assert Read(input, nested - 2, 2) == Fail(EndOfInput);
      }
    } else if pos + 8 + codeLength > |input| {
      assert code.Fail?;
    } else {
      assert Read(input, pos + 8 + codeLength, 2).Fail?;
    }
  }

  /** A class attribute occupies six octets of header plus its declared length. */
  lemma ClassAttributeSize(input: seq<Byte>, pos: nat)
    requires pos + 6 <= |input|
    ensures var r := ClassAttribute(input, pos); var length := ValueAt(input, pos + 2, 4);
      && (r.Ok? <==> pos + 6 + length <= |input|)
      && (r.Ok? ==> r.value.next == pos + 6 + length)
      && (r.Fail? ==> r.msg == EndOfInput)
  {
  }

  /** rfields: `k` fields are appended after the members already there, none a method. */
  lemma {:induction false} FieldListShape(input: seq<Byte>, pool: seq<Entry>, table: BytecodeTable, pos: nat, k: nat, acc: seq<Member>)
    requires pos <= |input|
    ensures var r := FieldList(input, pool, table, pos, k, acc);
      r.Ok? ==>
        && |r.value.v| == |acc| + k && r.value.v[..|acc|] == acc
        && forall i :: |acc| <= i < |r.value.v| ==> !r.value.v[i].isMethod
    decreases k
  {
    if k > 0 {
      var f := Field(input, pool, table, pos);
      if f.Ok? {
        FieldListShape(input, pool, table, f.value.next, k - 1, acc + [f.value.v]);
        var r := FieldList(input, pool, table, f.value.next, k - 1, acc + [f.value.v]);
        if r.Ok? {
          assert r.value.v[..|acc|] == (r.value.v[..|acc| + 1])[..|acc|];
        }
      }
    }
  }

  /** rmethods: `k` methods are appended after the members already there, all methods. */
  lemma {:induction false} MethodListShape(input: seq<Byte>, pool: seq<Entry>, table: BytecodeTable, pos: nat, k: nat, acc: seq<Member>)
    requires pos <= |input|
    ensures var r := MethodList(input, pool, table, pos, k, acc);
      r.Ok? ==>
        && |r.value.v| == |acc| + k && r.value.v[..|acc|] == acc
        && forall i :: |acc| <= i < |r.value.v| ==> r.value.v[i].isMethod
    decreases k
  {
    if k > 0 {
      var m := Method(input, pool, table, pos);
      if m.Ok? {
        MethodListShape(input, pool, table, m.value.next, k - 1, acc + [m.value.v]);
        var r := MethodList(input, pool, table, m.value.next, k - 1, acc + [m.value.v]);
        if r.Ok? {
          assert r.value.v[..|acc|] == (r.value.v[..|acc| + 1])[..|acc|];
        }
      }
    }
  }

  /** rinterfaces: each of the `k` two-octet indices must designate a used slot of the pool,
      and what is appended for it is the identifier of that entry itself. */
  lemma {:induction false} InterfaceListShape(input: seq<Byte>, pool: seq<Entry>, pos: nat, k: nat, acc: seq<string>)
    requires pos <= |input|
    ensures var r := InterfaceList(input, pool, pos, k, acc);
      r.Ok? ==>
        && r.value.next == pos + 2 * k
        && |r.value.v| == |acc| + k && r.value.v[..|acc|] == acc
        && forall i :: 0 <= i < k ==>
             var index := ValueAt(input, pos + 2 * i, 2);
             0 < index < |pool| && r.value.v[|acc| + i] == pool[index].id
    decreases k
  {
    if k > 0 && pos + 2 <= |input| {
      var index := ValueAt(input, pos, 2);
      if 0 < index < |pool| {
        var acc' := acc + [pool[index].id];
        InterfaceListShape(input, pool, pos + 2, k - 1, acc');
        var r := InterfaceList(input, pool, pos + 2, k - 1, acc');
        if r.Ok? {
          assert r.value.v[..|acc|] == (r.value.v[..|acc| + 1])[..|acc|];
          forall i | 1 <= i < k
            ensures var index := ValueAt(input, pos + 2 * i, 2);
              0 < index < |pool| && r.value.v[|acc| + i] == pool[index].id
          {
            assert pos + 2 * i == (pos + 2) + 2 * (i - 1);
          }
        }
      }
    }
  }

  /** rClassFile: in a class read successfully, every field comes before every method. */
  lemma ClassMembersOrdered(input: seq<Byte>, table: BytecodeTable)
    requires ClassFile(input, table).Ok?
    ensures var members := ClassFile(input, table).value.members;
      forall i, j :: 0 <= i < j < |members| && members[i].isMethod ==> members[j].isMethod
  {
    var pool := ConstantPool(input, 8).value;
    var pos := pool.next;
    var access := Read(input, pos, 2).value;
    var thisClass := Read(input, access.next, 2).value;
    var superClass := Read(input, thisClass.next, 2).value;
    var interfaces := Interfaces(input, pool.v, superClass.next, []).value;
    var fieldCount := Read(input, interfaces.next, 2).value;
    FieldListShape(input, pool.v, table, fieldCount.next, fieldCount.v, []);
    var fields := Fields(input, pool.v, table, interfaces.next, []).value;
    var methodCount := Read(input, fields.next, 2).value;
    MethodListShape(input, pool.v, table, methodCount.next, methodCount.v, fields.v);
  }
}
