/** The class-file reader: an object that owns the input stream's cursor, the constant pool
    it fills in place and the parse tree it appends to. Each reading routine is a method
    proved to agree with the function of the same purpose in ClassFileFormat: it succeeds
    exactly when that function does, yields the same values, leaves the cursor where the
    function says, and on failure carries the same message. */
module JavaBytecodeParser {
  import opened Bytes
  import opened ClassFileFormat

  /** `r` and the cursor `pos` are what the specification `s` prescribes. */
  predicate Agrees<T(==)>(r: Result<T>, s: Result<Got<T>>, pos: nat)
  {
    && r.Ok? == s.Ok?
    && (r.Ok? ==> r.value == s.value.v && pos == s.value.next)
    && (r.Fail? ==> r.msg == s.msg)
  }

  /** A routine that updates state succeeded exactly when `s` does, left the state `now`
      that `s` yields and the cursor where `s` leaves it, or failed with the message of `s`. */
  predicate Completes<T(==)>(r: Result<()>, now: T, s: Result<Got<T>>, pos: nat)
  {
    && r.Ok? == s.Ok?
    && (r.Ok? ==> now == s.value.v && pos == s.value.next)
    && (r.Fail? ==> r.msg == s.msg)
  }

  class Parser {
    /** The whole input stream; `pos` is how much of it has been consumed. */
    const input: seq<Byte>
    /** The opcode table built once when the reader is created. */
    const bytecodes: BytecodeTable
    var pos: nat
    var constantPool: seq<Entry>
    var classes: seq<Class>

    ghost predicate Valid()
      reads this
    {
      pos <= |input|
    }

    constructor (input: seq<Byte>, bytecodes: BytecodeTable)
      ensures Valid()
      ensures this.input == input && this.bytecodes == bytecodes
      ensures pos == 0 && constantPool == [] && classes == []
    {
      this.input := input;
      this.bytecodes := bytecodes;
      pos := 0;
      constantPool := [];
      classes := [];
    }

    /** Reads `n` octets as a big-endian number, one octet at a time. */
    method ReadBytes(n: nat) returns (r: Result<nat>)
      requires Valid()
      modifies this`pos
      ensures Valid()
      ensures Agrees(r, Read(input, old(pos), n), pos)
    {
      var result: nat := 0;
      for i := 0 to n
        invariant pos == old(pos) + i <= |input|
        invariant result == ValueAt(input, old(pos), i)
      {
        if pos == |input| {
          return Fail(EndOfInput);
        }
        result := result * 256 + input[pos];
        pos := pos + 1;
      }
      return Ok(result);
    }

    /** The checked constant-pool lookup. */
    method Constant(index: nat) returns (r: Result<Entry>)
      ensures r.Fail? <==> index == 0 || index >= |constantPool|
      ensures r.Ok? ==> r.value == constantPool[index]
      ensures r.Fail? ==> r.msg == BadPoolIndex
      ensures r == Lookup(constantPool, index)
    {
      if index == 0 || index >= |constantPool| {
        return Fail(BadPoolIndex);
      }
      return Ok(constantPool[index]);
    }

    /** One constant-pool entry: the reader's tag switch, whose cases are the rows of
        TagLayouts. */
    method RConstantEntry() returns (r: Result<Entry>)
      requires Valid()
      modifies this`pos
      ensures Valid()
      ensures Agrees(r, ConstantEntry(input, old(pos)), pos)
    {
      var tag :- ReadBytes(1);
      match LayoutOf(tag)
      case None =>
        r := Fail(UnknownTag(tag));
      case Some(Record(id, fields)) =>
        var values :- RRecord(fields);
        r := Ok(Entry(id, values));
      case Some(Wide(id)) =>
        var value :- ReadBytes(8);
        r := Ok(Entry(id, map["value" := Signed64(value)]));
      case Some(Utf8) =>
        r := RUtf8();
    }

    /** The fields of one entry, read in order, each set on the entry as it is read. */
    method RRecord(fields: seq<(string, nat)>) returns (r: Result<map<string, int>>)
      requires Valid()
      modifies this`pos
      ensures Valid()
      ensures Agrees(r, ReadFields(input, old(pos), fields, map[]), pos)
    {
      var values: map<string, int> := map[];
      for i := 0 to |fields|
        invariant Valid()
        invariant ReadFields(input, old(pos), fields, map[]) == ReadFields(input, pos, fields[i..], values)
      {
        assert fields[i..][1..] == fields[i + 1..];
        var value :- ReadBytes(fields[i].1);
        values := values[fields[i].0 := value];
      }
      return Ok(values);
    }

    /** A Utf8 entry: its length, then its text one octet at a time. */
    method RUtf8() returns (r: Result<Entry>)
      requires Valid()
      modifies this`pos
      ensures Valid()
      ensures Agrees(r, Utf8Entry(input, old(pos)), pos)
    {
      var length :- ReadBytes(2);
      ghost var start := pos;
      var text: string := [];
      for i := 0 to length
        invariant Valid() && pos == start + i
        invariant |text| == i
        invariant forall j :: 0 <= j < i ==> text[j] == input[start + j] as char
      {
        var octet :- ReadBytes(1);
        ValueAtSingle(input, pos - 1);
        text := text + [octet as char];
      }
      ghost var raw := input[start..pos];
      assert text == seq(|raw|, j requires 0 <= j < |raw| => raw[j] as char);
      r := Ok(Entry(text, map[]));
    }

    /** Reads the pool count and fills the freshly sized pool in place, leaving slot 0. */
    method RConstantPool() returns (r: Result<()>)
      requires Valid() && constantPool == []
      modifies this`pos, this`constantPool
      ensures Valid()
      ensures Completes(r, constantPool, ConstantPool(input, old(pos)), pos)
    {
      var count :- ReadBytes(2);
      if count == 0 {
        return Fail(BadPoolCount);
      }
      constantPool := seq(count, _ => EmptyEntry);
      assert constantPool[..1] == [EmptyEntry];
      r := RPoolEntries();
    }

    /** The loop over slots 1 .. |constantPool|-1 of the pool, filling each in place. */
    method RPoolEntries() returns (r: Result<()>)
      requires Valid() && |constantPool| > 0
      modifies this`pos, this`constantPool
      ensures Valid()
      ensures Completes(r, constantPool, PoolEntries(input, old(pos), |old(constantPool)| - 1, old(constantPool)[..1]), pos)
    {
      ghost var start := pos;
      var count := |constantPool|;
      for i := 1 to count
        invariant Valid() && |constantPool| == count
        invariant PoolEntries(input, start, count - 1, old(constantPool)[..1])
               == PoolEntries(input, pos, count - i, constantPool[..i])
      {
        ghost var before := constantPool;
        var e :- RConstantEntry();
        constantPool := constantPool[i := e];
        assert constantPool[..i + 1] == before[..i] + [e];
      }
      assert constantPool[..count] == constantPool;
      r := Ok(());
    }

    /** Appends, for each interface index, the identifier of the entry it designates. */
    method RInterfaces(implements: seq<string>) returns (r: Result<()>, implements': seq<string>)
      requires Valid()
      modifies this`pos
      ensures Valid()
      ensures Completes(r, implements', Interfaces(input, constantPool, old(pos), implements), pos)
    {
      implements' := implements;
      var count :- ReadBytes(2);
      ghost var start := pos;
      for i := 0 to count
        invariant Valid()
        invariant InterfaceList(input, constantPool, start, count, implements)
               == InterfaceList(input, constantPool, pos, count - i, implements')
      {
        var index :- ReadBytes(2);
        var entry :- Constant(index);
        implements' := implements' + [entry.id];
      }
      r := Ok(());
    }

    /** `n` octets read one at a time into a buffer of that size. */
    method RRaw(n: nat) returns (r: Result<seq<Byte>>)
      requires Valid()
      modifies this`pos
      ensures Valid()
      ensures Agrees(r, ReadRaw(input, old(pos), n), pos)
    {
      ghost var start := pos;
      var buffer: seq<Byte> := [];
      for i := 0 to n
        invariant Valid() && pos == start + i
        invariant buffer == input[start..pos]
      {
        var octet :- ReadBytes(1);
        ValueAtSingle(input, pos - 1);
        buffer := buffer + [octet as Byte];
        assert buffer == input[start..pos - 1] + input[pos - 1..pos];
      }
      return Ok(buffer);
    }

    /** Reads a code array of `codeLength` octets, then walks it by address: every opcode
        becomes an instruction appended to `instructions`, and its operands are stepped over
        as the opcode's format says. */
    method RBytecode(codeLength: nat, instructions: seq<Instruction>) returns (r: Result<()>, instructions': seq<Instruction>)
      requires Valid()
      modifies this`pos
      ensures Valid()
      ensures Completes(r, instructions', Bytecode(input, bytecodes, old(pos), codeLength, instructions), pos)
    {
      instructions' := instructions;
      ghost var start := pos;
      var code := new Byte[codeLength];
      for i := 0 to codeLength
        invariant Valid() && pos == start + i
        invariant code[..i] == input[start..pos]
      {
        var octet :- ReadBytes(1);
        ValueAtSingle(input, pos - 1);
        code[i] := octet as Byte;
        assert code[..i + 1] == input[start..pos - 1] + input[pos - 1..pos];
      }
      assert code[..] == input[start..start + codeLength];
      var address: nat := 0;
      while address < code.Length
        invariant Valid() && pos == start + codeLength && code[..] == input[start..pos]
        invariant instructions' + Instructions(bytecodes, code[..], address)
               == instructions + Instructions(bytecodes, code[..], 0)
        decreases code.Length - address
      {
        var info := bytecodes[code[address]];
        instructions' := instructions' + [Instruction(info.mnemonic, address)];
        if info.format == 1 {
          address := address + 1;
        } else if info.format == 2 {
          address := address + 2;
        } else if info.format == 4 {
          address := address + 4;
        }
        address := address + 1;
      }
      assert Instructions(bytecodes, code[..], address) == [];
      assert instructions' == instructions + Instructions(bytecodes, input[start..start + codeLength], 0);
      assert Bytecode(input, bytecodes, start, codeLength, instructions).Ok?;
      r := Ok(());
    }

    /** The exception table of a `Code` attribute: four two-octet fields per entry, dropped. */
    method RExceptionTable(count: nat) returns (r: Result<()>)
      requires Valid()
      modifies this`pos
      ensures Valid()
      ensures Completes(r, (), ExceptionTable(input, old(pos), count), pos)
    {
      ghost var start := pos;
      for e := 0 to count
        invariant Valid()
        invariant ExceptionTable(input, start, count) == ExceptionTable(input, pos, count - e)
      {
        var startPc :- ReadBytes(2);
        var endPc :- ReadBytes(2);
        var handlerPc :- ReadBytes(2);
        var catchType :- ReadBytes(2);
      }
      r := Ok(());
    }

    /** One attribute of a field or method; a `Code` attribute appends its instructions to
        `instructions`, anything else is read and dropped. */
    method RMemberAttribute(instructions: seq<Instruction>) returns (r: Result<()>, instructions': seq<Instruction>)
      requires Valid()
      modifies this`pos
      ensures Valid()
      ensures Completes(r, instructions', MemberAttribute(input, constantPool, bytecodes, old(pos), instructions), pos)
      decreases |input| - pos, 0
    {
      instructions' := instructions;
      var nameIndex :- ReadBytes(2);
      var length :- ReadBytes(4);
      var name :- Constant(nameIndex);
      if name.id == "Code" {
        r, instructions' := RCode(instructions');
      } else {
        var info :- RRaw(length);
        r := Ok(());
      }
    }

    /** The `Code` branch of the member-attribute reader. */
    method RCode(instructions: seq<Instruction>) returns (r: Result<()>, instructions': seq<Instruction>)
      requires Valid()
      modifies this`pos
      ensures Valid()
      ensures Completes(r, instructions', CodeAttribute(input, constantPool, bytecodes, old(pos), instructions), pos)
      decreases |input| - pos, 0
    {
      instructions' := instructions;
      var maxStack :- ReadBytes(2);
      var maxLocals :- ReadBytes(2);
      var codeLength :- ReadBytes(4);
      r, instructions' := RBytecode(codeLength, instructions');
      if r.Fail? {
        return;
      }
      var handlerCount :- ReadBytes(2);
      r := RExceptionTable(handlerCount);
      if r.Fail? {
        return;
      }
      var count :- ReadBytes(2);
      r, instructions' := RMemberAttributes(count, instructions');
    }

    /** `count` member attributes, read one after the other. */
    method RMemberAttributes(count: nat, instructions: seq<Instruction>) returns (r: Result<()>, instructions': seq<Instruction>)
      requires Valid()
      modifies this`pos
      ensures Valid()
      ensures Completes(r, instructions', MemberAttributes(input, constantPool, bytecodes, old(pos), count, instructions), pos)
      decreases |input| - pos, count
    {
      instructions' := instructions;
      ghost var start := pos;
      for j := 0 to count
        invariant Valid() && start <= pos && (j > 0 ==> start < pos)
        invariant MemberAttributes(input, constantPool, bytecodes, start, count, instructions)
               == MemberAttributes(input, constantPool, bytecodes, pos, count - j, instructions')
      {
        r, instructions' := RMemberAttribute(instructions');
        if r.Fail? {
          return;
        }
      }
      r := Ok(());
    }

    /** The body of the field loop: one field, its name and descriptor looked up after the
        attribute count is read. */
    method RField() returns (r: Result<Member>)
      requires Valid()
      modifies this`pos
      ensures Valid()
      ensures Agrees(r, Field(input, constantPool, bytecodes, old(pos)), pos)
    {
      var access :- ReadBytes(2);
      var nameIndex :- ReadBytes(2);
      var descriptorIndex :- ReadBytes(2);
      var count :- ReadBytes(2);
      var name :- Constant(nameIndex);
      var descriptor :- Constant(descriptorIndex);
      var status, instructions := RMemberAttributes(count, []);
      if status.Fail? {
        return Fail(status.msg);
      }
      return Ok(Member(false, name.id, descriptor.id, instructions));
    }

    /** The field table, appended to `members`: a two-octet count, then the field loop. */
    method RFields(members: seq<Member>) returns (r: Result<()>, members': seq<Member>)
      requires Valid()
      modifies this`pos
      ensures Valid()
      ensures Completes(r, members', Fields(input, constantPool, bytecodes, old(pos), members), pos)
    {
      members' := members;
      var count :- ReadBytes(2);
      r, members' := RFieldList(count, members);
    }

    /** The loop of the field table: `count` fields, each appended as it is read. */
    method RFieldList(count: nat, members: seq<Member>) returns (r: Result<()>, members': seq<Member>)
      requires Valid()
      modifies this`pos
      ensures Valid()
      ensures Completes(r, members', FieldList(input, constantPool, bytecodes, old(pos), count, members), pos)
    {
      members' := members;
      ghost var start := pos;
      for i := 0 to count
        invariant Valid()
        invariant FieldList(input, constantPool, bytecodes, start, count, members)
               == FieldList(input, constantPool, bytecodes, pos, count - i, members')
      {
        var member :- RField();
        members' := members' + [member];
      }
      r := Ok(());
    }

    /** One method: its name and descriptor are looked up before its attribute count is read. */
    method RMethod() returns (r: Result<Member>)
      requires Valid()
      modifies this`pos
      ensures Valid()
      ensures Agrees(r, Method(input, constantPool, bytecodes, old(pos)), pos)
    {
      var access :- ReadBytes(2);
      var nameIndex :- ReadBytes(2);
      var descriptorIndex :- ReadBytes(2);
      var name :- Constant(nameIndex);
      var descriptor :- Constant(descriptorIndex);
      var count :- ReadBytes(2);
      var status, instructions := RMemberAttributes(count, []);
      if status.Fail? {
        return Fail(status.msg);
      }
      return Ok(Member(true, name.id, descriptor.id, instructions));
    }

    /** The method table, appended to `members`: a two-octet count, then the method loop. */
    method RMethods(members: seq<Member>) returns (r: Result<()>, members': seq<Member>)
      requires Valid()
      modifies this`pos
      ensures Valid()
      ensures Completes(r, members', Methods(input, constantPool, bytecodes, old(pos), members), pos)
    {
      members' := members;
      var count :- ReadBytes(2);
      r, members' := RMethodList(count, members);
    }

    /** The loop of the method table: `count` methods, each appended as it is read. */
    method RMethodList(count: nat, members: seq<Member>) returns (r: Result<()>, members': seq<Member>)
      requires Valid()
      modifies this`pos
      ensures Valid()
      ensures Completes(r, members', MethodList(input, constantPool, bytecodes, old(pos), count, members), pos)
    {
      members' := members;
      ghost var start := pos;
      for j := 0 to count
        invariant Valid()
        invariant MethodList(input, constantPool, bytecodes, start, count, members)
               == MethodList(input, constantPool, bytecodes, pos, count - j, members')
      {
        var member :- RMethod();
        members' := members' + [member];
      }
      r := Ok(());
    }

    /** One class attribute, whose contents are read and dropped. */
    method RClassAttribute() returns (r: Result<()>)
      requires Valid()
      modifies this`pos
      ensures Valid()
      ensures Completes(r, (), ClassAttribute(input, old(pos)), pos)
    {
      var nameIndex :- ReadBytes(2);
      var length :- ReadBytes(4);
      var info :- RRaw(length);
      r := Ok(());
    }

    /** The class-attribute loop at the end of a class file. */
    method RClassAttributes(count: nat) returns (r: Result<()>)
      requires Valid()
      modifies this`pos
      ensures Valid()
      ensures Completes(r, (), ClassAttributes(input, old(pos), count), pos)
    {
      ghost var start := pos;
      for j := 0 to count
        invariant Valid()
        invariant ClassAttributes(input, start, count) == ClassAttributes(input, pos, count - j)
      {
        r := RClassAttribute();
        if r.Fail? {
          return;
        }
      }
      r := Ok(());
    }

    /** Everything after the constant pool, filled into the class `classes[k]` that has just
        been appended: names first, then interfaces, fields, methods and class attributes. */
    method RClassBody(k: nat) returns (r: Result<()>)
      requires Valid() && k == |classes| - 1 && classes[k] == EmptyClass
      modifies this`pos, this`classes
      ensures Valid()
      ensures |classes| == |old(classes)| && classes[..k] == old(classes)[..k]
      ensures Completes(r, classes[k], ClassBody(input, constantPool, bytecodes, old(pos)), pos)
    {
      var access :- ReadBytes(2);
      var thisClass :- ReadBytes(2);
      var superClass :- ReadBytes(2);
      var thisEntry :- Constant(thisClass);
      var name :- Constant(U2(Attr(thisEntry, "name")));
      classes := classes[k := classes[k].(name := name.id)];
      var superEntry :- Constant(superClass);
      var superName :- Constant(U2(Attr(superEntry, "name")));
      classes := classes[k := classes[k].(superName := superName.id)];
      var implements, members;
      r, implements := RInterfaces(classes[k].implements);
      classes := classes[k := classes[k].(implements := implements)];
      if r.Fail? {
        return;
      }
      r, members := RFields(classes[k].members);
      classes := classes[k := classes[k].(members := members)];
      if r.Fail? {
        return;
      }
      r, members := RMethods(classes[k].members);
      classes := classes[k := classes[k].(members := members)];
      if r.Fail? {
        return;
      }
      var count :- ReadBytes(2);
      r := RClassAttributes(count);
    }

    /** A whole class file: the header is read in full before it is checked; the class is
        appended to the parse tree once the constant pool has been read. */
    method RClassFile() returns (r: Result<()>)
      requires Valid() && pos == 0 && constantPool == []
      modifies this`pos, this`constantPool, this`classes
      ensures Valid()
      ensures var s := ClassFile(input, bytecodes);
        && r.Ok? == s.Ok?
        && (r.Ok? ==> classes == old(classes) + [s.value])
        && (r.Fail? ==> r.msg == s.msg)
      ensures |old(classes)| <= |classes| <= |old(classes)| + 1 && classes[..|old(classes)|] == old(classes)
    {
      var magic :- ReadBytes(4);
      var minor :- ReadBytes(2);
      var major :- ReadBytes(2);
      if magic != Magic {
        return Fail(WrongMagic);
      }
      if major < MinMajorVersion {
        return Fail(BadMajorVersion);
      }
      r := RConstantPool();
      if r.Fail? {
        return;
      }
      classes := classes + [EmptyClass];
      r := RClassBody(|classes| - 1);
    }

    /** Runs the reader once; `failed` is true exactly when reading stopped with an error,
        whose message is `message`. */
    method Parse() returns (failed: bool, message: string)
      requires Valid() && pos == 0 && constantPool == []
      modifies this`pos, this`constantPool, this`classes
      ensures Valid()
      ensures failed == ClassFile(input, bytecodes).Fail?
      ensures failed ==> message == ClassFile(input, bytecodes).msg
      ensures !failed ==> classes == old(classes) + [ClassFile(input, bytecodes).value]
      ensures |old(classes)| <= |classes| <= |old(classes)| + 1 && classes[..|old(classes)|] == old(classes)
    {
      var r := RClassFile();
      if r.Fail? {
        return true, r.msg;
      }
      return false, "";
    }
  }

  /** Reads one class file with a fresh reader and hands its parse tree to the caller,
      whether or not reading succeeded. */
  method JavaBytecodeParse(input: seq<Byte>, bytecodes: BytecodeTable) returns (failed: bool, message: string, classes: seq<Class>)
    ensures failed <==> ClassFile(input, bytecodes).Fail?
    ensures failed ==> message == ClassFile(input, bytecodes).msg && |classes| <= 1
    ensures !failed ==> classes == [ClassFile(input, bytecodes).value]
  {
    var parser := new Parser(input, bytecodes);
    failed, message := parser.Parse();
    classes := parser.classes;
  }
}
