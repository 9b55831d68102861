/** The class-file reader's behaviour as pure functions over the input octets and a cursor.
    Every function mirrors one reading routine of the reader: it returns what the routine
    produces together with the cursor just after the octets it consumed, or the message of
    the exception the routine throws. */
module ClassFileFormat {
  import opened Bytes

  datatype Result<T> = Ok(value: T) | Fail(msg: string) {
    predicate IsFailure() { Fail? }
    function PropagateFailure<U>(): Result<U>
      requires Fail?
    {
      Fail(msg)
    }
    function Extract(): T
      requires Ok?
    {
      value
    }
  }

  /** A decoded value together with the cursor just past its octets. */
  datatype Got<T> = Got(v: T, next: nat)

  const EndOfInput := "unexpected end of input file"
  const WrongMagic := "wrong magic"
  const BadMajorVersion := "unexpected major version"
  const BadPoolCount := "invalid constant_pool_count"
  const BadPoolIndex := "invalid constant pool index"

  const Magic := 0xCAFE_BABE
  const MinMajorVersion := 44

  const TagUtf8 := 1
  const TagInteger := 3
  const TagFloat := 4
  const TagLong := 5
  const TagDouble := 6
  const TagClass := 7
  const TagString := 8
  const TagFieldref := 9
  const TagMethodref := 10
  const TagInterfaceMethodref := 11
  const TagNameAndType := 12
  const TagMethodHandle := 15
  const TagMethodType := 16
  const TagInvokeDynamic := 18

  /** A constant-pool entry: the identifier of the expression the reader fills in (a kind
      such as "class", or the text itself for a Utf8 entry) and its named integer fields. */
  datatype Entry = Entry(id: string, attrs: map<string, int>)

  /** A default-constructed expression: the state of entry 0 and of every unfilled slot. */
  const EmptyEntry := Entry("", map[])

  datatype Instruction = Instruction(statement: string, address: nat)
  datatype Member = Member(isMethod: bool, name: string, signature: string, instructions: seq<Instruction>)
  datatype Class = Class(name: string, superName: string, implements: seq<string>, members: seq<Member>)

  /** The mnemonic and operand format registered for one opcode. */
  datatype BytecodeInfo = BytecodeInfo(mnemonic: string, format: nat)

  /** The 256-entry opcode table, indexed by opcode. */
  type BytecodeTable = t: seq<BytecodeInfo> | |t| == 256
    witness seq(256, _ => BytecodeInfo("", 0))

  /** Decimal rendering of a natural number, as `i2string` produces it. */
  function DecimalString(n: nat): string
  {
    if n < 10 then [(48 + n) as char] else DecimalString(n / 10) + [(48 + n % 10) as char]
  }

  function UnknownTag(tag: nat): string
  {
    "unknown constant pool entry (" + DecimalString(tag) + ")"
  }

  /** An unsigned 64-bit value stored into a signed 64-bit integer field. */
  function Signed64(v: nat): int
  {
    if v < 0x8000_0000_0000_0000 then v else v - 0x1_0000_0000_0000_0000
  }

  /** Reading a named integer field: an absent field reads as 0. */
  function Attr(e: Entry, key: string): int
  {
    if key in e.attrs then e.attrs[key] else 0
  }

  /** Truncation to the 16-bit index type that the checked lookup takes. */
  function U2(v: int): nat
  {
    v % 0x1_0000
  }

  /** The next `n` octets as a big-endian number. */
  function Read(input: seq<Byte>, pos: nat, n: nat): Result<Got<nat>>
  {
    if pos + n <= |input| then Ok(Got(ValueAt(input, pos, n), pos + n)) else Fail(EndOfInput)
  }

  /** The next `n` octets themselves. */
  function ReadRaw(input: seq<Byte>, pos: nat, n: nat): Result<Got<seq<Byte>>>
  {
    if pos + n <= |input| then Ok(Got(input[pos..pos + n], pos + n)) else Fail(EndOfInput)
  }

  /** The checked constant-pool lookup. */
  function Lookup(pool: seq<Entry>, index: nat): Result<Entry>
  {
    if index == 0 || index >= |pool| then Fail(BadPoolIndex) else Ok(pool[index])
  }

  /** How the octets that follow a tag are laid out. */
  datatype Layout =
    | Record(id: string, fields: seq<(string, nat)>)  // named unsigned fields of the given widths, in order
    | Wide(id: string)                                // one eight-octet value, stored as a signed 64-bit integer
    | Utf8                                            // a two-octet length and that many octets of text

  datatype Option<T> = None | Some(value: T)

  /** The cases of the constant-pool reader's tag switch, in the order it lists them, each
      with the layout of the octets that follow the tag. Long and Double are read like every
      other entry and occupy one slot. */
  const TagLayouts: seq<(nat, Layout)> := [
    (TagClass, Record("class", [("name", 2)])),
    (TagFieldref, Record("fieldref", [("class", 2), ("name", 2)])),
    (TagMethodref, Record("methodref", [("class", 2), ("name", 2)])),
    (TagInterfaceMethodref, Record("interfacemethodref", [("class", 2), ("name", 2)])),
    (TagString, Record("string", [("index", 2)])),
    (TagInteger, Record("int", [("value", 4)])),
    (TagFloat, Record("float", [("value", 4)])),
    (TagLong, Wide("long")),
    (TagDouble, Wide("double")),
    (TagNameAndType, Record("nameandtype", [("name", 2), ("type", 2)])),
    (TagUtf8, Utf8),
    (TagMethodHandle, Record("methodhandle", [("kind", 1), ("index", 2)])),
    (TagMethodType, Record("methodtype", [("index", 2)])),
    (TagInvokeDynamic, Record("invokedynamic", [("bootstrap_method_attr", 2), ("nameandtype", 2)]))
  ]

  /** The layout listed for `tag` in `cases`, if any. */
  function LayoutIn(cases: seq<(nat, Layout)>, tag: nat): Option<Layout>
    decreases |cases|
  {
    if |cases| == 0 then None
    else if cases[0].0 == tag then Some(cases[0].1)
    else LayoutIn(cases[1..], tag)
  }

  function LayoutOf(tag: nat): Option<Layout>
  {
    LayoutIn(TagLayouts, tag)
  }

  /** Named unsigned fields read one after the other and stored into `acc`; a later field
      of the same name overwrites an earlier one. */
  function ReadFields(input: seq<Byte>, pos: nat, fields: seq<(string, nat)>, acc: map<string, int>)
    : (r: Result<Got<map<string, int>>>)
    requires pos <= |input|
    ensures r.Ok? ==> pos <= r.value.next <= |input|
    decreases |fields|
  {
    if |fields| == 0 then Ok(Got(acc, pos))
    else
      var x :- Read(input, pos, fields[0].1);
      ReadFields(input, x.next, fields[1..], acc[fields[0].0 := x.v])
  }

  /** A Utf8 entry: a two-octet length and that many octets, which become the identifier. */
  function Utf8Entry(input: seq<Byte>, pos: nat): Result<Got<Entry>>
  {
    var length :- Read(input, pos, 2);
    var text :- ReadRaw(input, length.next, length.v);
    Ok(Got(Entry(seq(|text.v|, i requires 0 <= i < |text.v| => text.v[i] as char), map[]), text.next))
  }

  /** The octets after a tag, read as `layout` says. */
  function ReadLayout(input: seq<Byte>, pos: nat, layout: Layout): (r: Result<Got<Entry>>)
    requires pos <= |input|
    ensures r.Ok? ==> pos <= r.value.next <= |input|
  {
    match layout
    case Record(id, fields) =>
      var values :- ReadFields(input, pos, fields, map[]);
      Ok(Got(Entry(id, values.v), values.next))
    case Wide(id) =>
      var x :- Read(input, pos, 8);
      Ok(Got(Entry(id, map["value" := Signed64(x.v)]), x.next))
    case Utf8 => Utf8Entry(input, pos)
  }

  /** One constant-pool entry: a tag octet, then the fields that tag calls for. */
  function ConstantEntry(input: seq<Byte>, pos: nat): (r: Result<Got<Entry>>)
    ensures r.Ok? ==> pos < r.value.next <= |input|
  {
    var tag :- Read(input, pos, 1);
    match LayoutOf(tag.v)
    case None => Fail(UnknownTag(tag.v))
    case Some(layout) => ReadLayout(input, tag.next, layout)
  }

  /** `k` consecutive constant-pool entries, appended to the `acc` already read. */
  function PoolEntries(input: seq<Byte>, pos: nat, k: nat, acc: seq<Entry>): (r: Result<Got<seq<Entry>>>)
    requires pos <= |input|
    ensures r.Ok? ==> pos <= r.value.next <= |input|
    decreases k
  {
    if k == 0 then Ok(Got(acc, pos))
    else
      var e :- ConstantEntry(input, pos);
      PoolEntries(input, e.next, k - 1, acc + [e.v])
  }

  /** The constant pool: a two-octet count, then entries 1 .. count-1; entry 0 stays empty. */
  function ConstantPool(input: seq<Byte>, pos: nat): (r: Result<Got<seq<Entry>>>)
    requires pos <= |input|
    ensures r.Ok? ==> pos <= r.value.next <= |input|
  {
    var count :- Read(input, pos, 2);
    if count.v == 0 then Fail(BadPoolCount)
    else PoolEntries(input, count.next, count.v - 1, [EmptyEntry])
  }

  /** How many operand octets follow an opcode of the given format. */
  function OperandBytes(format: nat): nat
  {
    if format == 1 then 1 else if format == 2 then 2 else if format == 4 then 4 else 0
  }

  /** The instructions of a code array from `address` on: each opcode becomes one instruction
      carrying its mnemonic and address, and its operands are skipped. */
  function Instructions(table: BytecodeTable, code: seq<Byte>, address: nat): seq<Instruction>
    decreases |code| - address
  {
    if address >= |code| then []
    else
      var info := table[code[address]];
      [Instruction(info.mnemonic, address)] + Instructions(table, code, address + 1 + OperandBytes(info.format))
  }

  /** A code array of `length` octets, whose instructions are appended to `acc`. */
  function Bytecode(input: seq<Byte>, table: BytecodeTable, pos: nat, length: nat, acc: seq<Instruction>)
    : (r: Result<Got<seq<Instruction>>>)
    ensures r.Ok? <==> pos + length <= |input|
    ensures r.Ok? ==> r.value.next == pos + length
    ensures r.Ok? ==> r.value.v == acc + Instructions(table, input[pos..pos + length], 0)
  {
    var code :- ReadRaw(input, pos, length);
    Ok(Got(acc + Instructions(table, code.v, 0), code.next))
  }

  /** `k` exception-table entries, each four two-octet fields that are read and dropped. */
  function ExceptionTable(input: seq<Byte>, pos: nat, k: nat): (r: Result<Got<()>>)
    requires pos <= |input|
    ensures r.Ok? <==> pos + 8 * k <= |input|
    ensures r.Ok? ==> r.value.next == pos + 8 * k
    ensures r.Fail? ==> r.msg == EndOfInput
    decreases k
  {
    if k == 0 then Ok(Got((), pos))
    else
      assert 8 * k == 8 + 8 * (k - 1);
      var startPc :- Read(input, pos, 2);
      var endPc :- Read(input, startPc.next, 2);
      var handlerPc :- Read(input, endPc.next, 2);
      var catchType :- Read(input, handlerPc.next, 2);
      ExceptionTable(input, catchType.next, k - 1)
  }

  /** One attribute of a field or method, appending the instructions of its `Code`
      attributes to `acc`; any attribute other than `Code` is skipped by its declared length. */
  function MemberAttribute(input: seq<Byte>, pool: seq<Entry>, table: BytecodeTable, pos: nat, acc: seq<Instruction>)
    : (r: Result<Got<seq<Instruction>>>)
    requires pos <= |input|
    ensures r.Ok? ==> pos + 6 <= r.value.next <= |input|
    decreases |input| - pos, 0
  {
    var nameIndex :- Read(input, pos, 2);
    var length :- Read(input, nameIndex.next, 4);
    var name :- Lookup(pool, nameIndex.v);
    if name.id == "Code" then CodeAttribute(input, pool, table, length.next, acc)
    else
      var info :- ReadRaw(input, length.next, length.v);
      Ok(Got(acc, info.next))
  }

  /** The body of a `Code` attribute after its name and length: maximum stack and locals,
      the code array, the exception table and the attribute's own nested attributes. The
      declared attribute length is not consulted. */
  function CodeAttribute(input: seq<Byte>, pool: seq<Entry>, table: BytecodeTable, pos: nat, acc: seq<Instruction>)
    : (r: Result<Got<seq<Instruction>>>)
    requires pos <= |input|
    ensures r.Ok? ==> pos + 12 <= r.value.next <= |input|
    decreases |input| - pos, 0
  {
    var maxStack :- Read(input, pos, 2);
    var maxLocals :- Read(input, maxStack.next, 2);
    var codeLength :- Read(input, maxLocals.next, 4);
    var code :- Bytecode(input, table, codeLength.next, codeLength.v, acc);
    var handlerCount :- Read(input, code.next, 2);
    var handlers :- ExceptionTable(input, handlerCount.next, handlerCount.v);
    var count :- Read(input, handlers.next, 2);
    MemberAttributes(input, pool, table, count.next, count.v, code.v)
  }

  /** `k` consecutive member attributes. */
  function MemberAttributes(input: seq<Byte>, pool: seq<Entry>, table: BytecodeTable, pos: nat, k: nat, acc: seq<Instruction>)
    : (r: Result<Got<seq<Instruction>>>)
    requires pos <= |input|
    ensures r.Ok? ==> pos <= r.value.next <= |input|
    decreases |input| - pos, k
  {
    if k == 0 then Ok(Got(acc, pos))
    else
      var first :- MemberAttribute(input, pool, table, pos, acc);
      MemberAttributes(input, pool, table, first.next, k - 1, first.v)
  }

  /** One field: access flags, name index, descriptor index and attribute count are read
      before the name and descriptor are looked up. */
  function Field(input: seq<Byte>, pool: seq<Entry>, table: BytecodeTable, pos: nat): (r: Result<Got<Member>>)
    requires pos <= |input|
    ensures r.Ok? ==> pos <= r.value.next <= |input|
  {
    var access :- Read(input, pos, 2);
    var nameIndex :- Read(input, access.next, 2);
    var descriptorIndex :- Read(input, nameIndex.next, 2);
    var count :- Read(input, descriptorIndex.next, 2);
    var name :- Lookup(pool, nameIndex.v);
    var descriptor :- Lookup(pool, descriptorIndex.v);
    var attributes :- MemberAttributes(input, pool, table, count.next, count.v, []);
    Ok(Got(Member(false, name.id, descriptor.id, attributes.v), attributes.next))
  }

  /** One method: the name and descriptor are looked up before the attribute count is read. */
  function Method(input: seq<Byte>, pool: seq<Entry>, table: BytecodeTable, pos: nat): (r: Result<Got<Member>>)
    requires pos <= |input|
    ensures r.Ok? ==> pos <= r.value.next <= |input|
  {
    var access :- Read(input, pos, 2);
    var nameIndex :- Read(input, access.next, 2);
    var descriptorIndex :- Read(input, nameIndex.next, 2);
    var name :- Lookup(pool, nameIndex.v);
    var descriptor :- Lookup(pool, descriptorIndex.v);
    var count :- Read(input, descriptorIndex.next, 2);
    var attributes :- MemberAttributes(input, pool, table, count.next, count.v, []);
    Ok(Got(Member(true, name.id, descriptor.id, attributes.v), attributes.next))
  }

  /** `k` fields appended to the members `acc`. */
  function FieldList(input: seq<Byte>, pool: seq<Entry>, table: BytecodeTable, pos: nat, k: nat, acc: seq<Member>)
    : (r: Result<Got<seq<Member>>>)
    requires pos <= |input|
    ensures r.Ok? ==> pos <= r.value.next <= |input|
    decreases k
  {
    if k == 0 then Ok(Got(acc, pos))
    else
      var first :- Field(input, pool, table, pos);
      FieldList(input, pool, table, first.next, k - 1, acc + [first.v])
  }

  /** `k` methods appended to the members `acc`. */
  function MethodList(input: seq<Byte>, pool: seq<Entry>, table: BytecodeTable, pos: nat, k: nat, acc: seq<Member>)
    : (r: Result<Got<seq<Member>>>)
    requires pos <= |input|
    ensures r.Ok? ==> pos <= r.value.next <= |input|
    decreases k
  {
    if k == 0 then Ok(Got(acc, pos))
    else
      var first :- Method(input, pool, table, pos);
      MethodList(input, pool, table, first.next, k - 1, acc + [first.v])
  }

  /** The field table: a two-octet count, then that many fields. */
  function Fields(input: seq<Byte>, pool: seq<Entry>, table: BytecodeTable, pos: nat, acc: seq<Member>)
    : (r: Result<Got<seq<Member>>>)
    requires pos <= |input|
    ensures r.Ok? ==> pos <= r.value.next <= |input|
  {
    var count :- Read(input, pos, 2);
    FieldList(input, pool, table, count.next, count.v, acc)
  }

  /** The method table: a two-octet count, then that many methods. */
  function Methods(input: seq<Byte>, pool: seq<Entry>, table: BytecodeTable, pos: nat, acc: seq<Member>)
    : (r: Result<Got<seq<Member>>>)
    requires pos <= |input|
    ensures r.Ok? ==> pos <= r.value.next <= |input|
  {
    var count :- Read(input, pos, 2);
    MethodList(input, pool, table, count.next, count.v, acc)
  }

  /** `k` interface indices, each looked up right after it is read; what is kept is the
      identifier of the referenced entry itself. */
  function InterfaceList(input: seq<Byte>, pool: seq<Entry>, pos: nat, k: nat, acc: seq<string>)
    : (r: Result<Got<seq<string>>>)
    requires pos <= |input|
    ensures r.Ok? ==> pos <= r.value.next <= |input|
    decreases k
  {
    if k == 0 then Ok(Got(acc, pos))
    else
      var index :- Read(input, pos, 2);
      var entry :- Lookup(pool, index.v);
      InterfaceList(input, pool, index.next, k - 1, acc + [entry.id])
  }

  /** The interface table: a two-octet count, then that many indices. */
  function Interfaces(input: seq<Byte>, pool: seq<Entry>, pos: nat, acc: seq<string>): (r: Result<Got<seq<string>>>)
    requires pos <= |input|
    ensures r.Ok? ==> pos <= r.value.next <= |input|
  {
    var count :- Read(input, pos, 2);
    InterfaceList(input, pool, count.next, count.v, acc)
  }

  /** One class attribute: name index, length, and `length` octets that are skipped. */
  function ClassAttribute(input: seq<Byte>, pos: nat): Result<Got<()>>
  {
    var nameIndex :- Read(input, pos, 2);
    var length :- Read(input, nameIndex.next, 4);
    var info :- ReadRaw(input, length.next, length.v);
    Ok(Got((), info.next))
  }

  /** `k` consecutive class attributes. */
  function ClassAttributes(input: seq<Byte>, pos: nat, k: nat): Result<Got<()>>
    decreases k
  {
    if k == 0 then Ok(Got((), pos))
    else
      var first :- ClassAttribute(input, pos);
      ClassAttributes(input, first.next, k - 1)
  }

  /** The class the reader appends to the parse tree before filling it in. */
  const EmptyClass := Class("", "", [], [])

  /** Everything after the constant pool: flags, this and super class, interfaces, fields,
      methods and class attributes. The class and super-class names are found through the
      `name` field of the entries the two indices designate. */
  function ClassBody(input: seq<Byte>, pool: seq<Entry>, table: BytecodeTable, pos: nat): Result<Got<Class>>
    requires pos <= |input|
  {
    var access :- Read(input, pos, 2);
    var thisClass :- Read(input, access.next, 2);
    var superClass :- Read(input, thisClass.next, 2);
    var thisEntry :- Lookup(pool, thisClass.v);
    var name :- Lookup(pool, U2(Attr(thisEntry, "name")));
    var superEntry :- Lookup(pool, superClass.v);
    var superName :- Lookup(pool, U2(Attr(superEntry, "name")));
    var interfaces :- Interfaces(input, pool, superClass.next, []);
    var fields :- Fields(input, pool, table, interfaces.next, []);
    var members :- Methods(input, pool, table, fields.next, fields.v);
    var count :- Read(input, members.next, 2);
    var end :- ClassAttributes(input, count.next, count.v);
    Ok(Got(Class(name.id, superName.id, interfaces.v, members.v), end.next))
  }

  /** A whole class file: magic, minor and major version are all read before either is
      checked, then the constant pool and the class body follow. Octets after the last class
      attribute are ignored. */
  function ClassFile(input: seq<Byte>, table: BytecodeTable): Result<Class>
  {
    var magic :- Read(input, 0, 4);
    var minor :- Read(input, 4, 2);
    var major :- Read(input, 6, 2);
    if magic.v != Magic then Fail(WrongMagic)
    else if major.v < MinMajorVersion then Fail(BadMajorVersion)
    else
      var pool :- ConstantPool(input, 8);
      var body :- ClassBody(input, pool.v, table, pool.next);
      Ok(body.v)
  }
}
