/** context_create and context_destroy of the process program type: unpacking four strings from one
    buffer, packing them back, and giving back every pool block. */
module ProcessTestRun {
  import opened Common
  import opened KernelPool
  import opened ProcessAccount
  import opened ProcessHelpers

  datatype EbpfResult = EbpfSuccess | InvalidArgument | NoMemory

  /** The caller's context.  Its descriptors carry lengths only: their Buffer fields are NULL. */
  datatype InputContext = InputContext(
    commandLine: UnicodeString, imageFileName: UnicodeString,
    accountName: UnicodeString, accountDomain: UnicodeString,
    lookupDone: bool, tokenSidSize: nat, sidValid: bool, md: ProcessMd)

  /** The wrapper that remembers the account buffers the context started with. */
  class TestContext {
    const base: ProcessContext
    var nameInitial: array?<Byte>
    var domainInitial: array?<Byte>

    constructor (base: ProcessContext)
      ensures this.base == base && nameInitial == null && domainInitial == null
    {
      this.base := base;
      nameInitial := null;
      domainInitial := null;
    }
  }

  ghost function Block(b: array?<Byte>): set<object> { if b == null then {} else {b} }

  predicate LengthOnly(u: UnicodeString) { u.buffer == null && u.maximumLength <= USHRT_MAX && u.length <= USHRT_MAX }

  /** The descriptor of a string unpacked for `src`: an empty string has neither buffer nor room. */
  predicate Unpacked(u: UnicodeString, src: UnicodeString) {
    if src.length == 0 then u == NullString
    else u.length == src.length && u.maximumLength == src.maximumLength && u.buffer != null
  }

  /** Deep-copy one string from the packed data. */
  method DeepCopy(pool: Pool, src: UnicodeString, data: array<Byte>, offset: nat, ghost bytes: seq<Byte>)
    returns (ok: bool, dest: UnicodeString, offset': nat)
    requires pool.Valid() && LengthOnly(src) && src.length <= src.maximumLength
    requires bytes == data[..] && offset + src.length <= |bytes|
    modifies pool
    ensures pool.Valid() && pool.freed == old(pool.freed)
    ensures fresh(Block(dest.buffer)) && pool.taken == old(pool.taken) + Block(dest.buffer)
    ensures ok ==> Sound(dest) && offset' == offset + src.length && Contents(dest) == bytes[offset..offset']
    ensures ok ==> Unpacked(dest, src)
    ensures !ok ==> dest.buffer == null
    ensures pool.refused == old(pool.refused) + if ok then 0 else 1
  {
    if src.length == 0 {
      return true, NullString, offset;
    }
    var buffer := pool.Allocate(src.maximumLength);
    if buffer == null {
      return false, src, offset;
    }
    Write(buffer, data[offset..offset + src.length]);
    return true, UnicodeString(src.length, src.maximumLength, buffer), offset + src.length;
  }

  datatype Strings = Strings(commandLine: UnicodeString, imageFileName: UnicodeString,
                             accountName: UnicodeString, accountDomain: UnicodeString)

  ghost function Blocks(t: Strings): set<object> {
    (Block(t.commandLine.buffer) + Block(t.imageFileName.buffer)) + (Block(t.accountName.buffer) + Block(t.accountDomain.buffer))
  }

  /** No two of the strings share a buffer. */
  predicate AllApart(t: Strings) {
    && Apart(t.accountName, t.accountDomain) && Apart(t.commandLine, t.imageFileName)
    && Apart(t.accountName, t.commandLine) && Apart(t.accountName, t.imageFileName)
    && Apart(t.accountDomain, t.commandLine) && Apart(t.accountDomain, t.imageFileName)
  }

  ghost predicate AllSound(t: Strings) {
    Sound(t.commandLine) && Sound(t.imageFileName) && Sound(t.accountName) && Sound(t.accountDomain)
  }

  ghost function Packed(t: Strings): seq<Byte>
    requires AllSound(t)
    reads t.commandLine.buffer, t.imageFileName.buffer, t.accountName.buffer, t.accountDomain.buffer
  {
    Contents(t.commandLine) + Contents(t.imageFileName) + Contents(t.accountName) + Contents(t.accountDomain)
  }

  function TotalLength(t: Strings): nat {
    t.commandLine.length + t.imageFileName.length + t.accountName.length + t.accountDomain.length
  }

  predicate LengthsOnly(t: Strings) {
    LengthOnly(t.commandLine) && LengthOnly(t.imageFileName) && LengthOnly(t.accountName) && LengthOnly(t.accountDomain)
  }

  predicate LengthsFit(t: Strings) {
    && t.commandLine.length <= t.commandLine.maximumLength && t.imageFileName.length <= t.imageFileName.maximumLength
    && t.accountName.length <= t.accountName.maximumLength && t.accountDomain.length <= t.accountDomain.maximumLength
  }

  /** Unpack two strings in order, stopping at the first allocation that fails. */
  method UnpackTwo(pool: Pool, src1: UnicodeString, src2: UnicodeString, data: array<Byte>, offset: nat,
                   ghost bytes: seq<Byte>)
    returns (ok: bool, u1: UnicodeString, u2: UnicodeString, cut: nat, offset': nat)
    requires pool.Valid() && LengthOnly(src1) && LengthOnly(src2)
    requires src1.length <= src1.maximumLength && src2.length <= src2.maximumLength
    requires bytes == data[..] && offset + src1.length + src2.length <= |bytes|
    modifies pool
    ensures pool.Valid() && pool.freed == old(pool.freed)
    ensures Apart(u1, u2) && fresh(Block(u1.buffer) + Block(u2.buffer))
    ensures pool.taken == old(pool.taken) + (Block(u1.buffer) + Block(u2.buffer))
    ensures ok ==> Sound(u1) && Sound(u2) && Unpacked(u1, src1) && Unpacked(u2, src2)
    ensures ok ==> cut == offset + src1.length && offset' == cut + src2.length
    ensures pool.refused == old(pool.refused) + if ok then 0 else 1
    ensures ok ==> Contents(u1) == bytes[offset..cut] && Contents(u2) == bytes[cut..offset']
  {
    u2, offset' := src2, offset;
    ok, u1, cut := DeepCopy(pool, src1, data, offset, bytes);
    if ok {
      ok, u2, offset' := DeepCopy(pool, src2, data, cut, bytes);
    }
  }

  /** The four byte strings are the consecutive pieces of `data` that the lengths of `src` cut out. */
  ghost predicate Cuts(cmd: seq<Byte>, img: seq<Byte>, name: seq<Byte>, domain: seq<Byte>, src: Strings, data: seq<Byte>)
    requires TotalLength(src) <= |data|
  {
    var a := src.commandLine.length;
    var b := a + src.imageFileName.length;
    var c := b + src.accountName.length;
    cmd == data[0..a] && img == data[a..b] && name == data[b..c] && domain == data[c..c + src.accountDomain.length]
  }

  ghost predicate Pieces(t: Strings, src: Strings, data: seq<Byte>)
    requires AllSound(t) && TotalLength(src) <= |data|
    reads t.commandLine.buffer, t.imageFileName.buffer, t.accountName.buffer, t.accountDomain.buffer
  {
    Cuts(Contents(t.commandLine), Contents(t.imageFileName), Contents(t.accountName), Contents(t.accountDomain), src, data)
  }

  lemma CutsJoin(cmd: seq<Byte>, img: seq<Byte>, name: seq<Byte>, domain: seq<Byte>, src: Strings, data: seq<Byte>,
                 a: nat, b: nat, c: nat, d: nat)
    requires TotalLength(src) <= |data| && a == src.commandLine.length && b == a + src.imageFileName.length
    requires c == b + src.accountName.length && d == c + src.accountDomain.length
    requires cmd == data[0..a] && img == data[a..b] && name == data[b..c] && domain == data[c..d]
    ensures Cuts(cmd, img, name, domain, src, data)
  {
  }

  /** Packing the pieces gives back the data they were cut from. */
  lemma PiecesPack(t: Strings, src: Strings, data: seq<Byte>)
    requires AllSound(t) && TotalLength(src) <= |data| && Pieces(t, src, data)
    ensures Packed(t) == data[..TotalLength(src)] && TotalLength(t) == TotalLength(src)
  {
    var a := src.commandLine.length;
    var b := a + src.imageFileName.length;
    var c := b + src.accountName.length;
    var d := c + src.accountDomain.length;
    SizeIs(t.commandLine);
    SizeIs(t.imageFileName);
    SizeIs(t.accountName);
    SizeIs(t.accountDomain);
    Adjacent(data, 0, a);
    Adjacent(data, a, b);
    Adjacent(data, b, c);
    Adjacent(data, c, d);
  }

  lemma SizeIs(u: UnicodeString)
    requires Sound(u)
    ensures |Contents(u)| == u.length
  {
  }

  lemma Adjacent(data: seq<Byte>, a: nat, b: nat)
    requires a <= b <= |data|
    ensures data[..a] + data[a..b] == data[..b]
  {
  }

  predicate AllUnpacked(t: Strings, src: Strings) {
    && Unpacked(t.commandLine, src.commandLine) && Unpacked(t.imageFileName, src.imageFileName)
    && Unpacked(t.accountName, src.accountName) && Unpacked(t.accountDomain, src.accountDomain)
  }

  /** Unpack the four strings in order, stopping at the first allocation that fails. */
  method Unpack(pool: Pool, src: Strings, data: array<Byte>, ghost bytes: seq<Byte>) returns (ok: bool, t: Strings)
    requires pool.Valid() && LengthsOnly(src) && LengthsFit(src) && bytes == data[..] && TotalLength(src) <= |bytes|
    modifies pool
    ensures pool.Valid() && pool.freed == old(pool.freed)
    ensures fresh(Blocks(t)) && AllApart(t) && pool.taken == old(pool.taken) + Blocks(t)
    ensures ok ==> AllSound(t) && Pieces(t, src, bytes)
    ensures pool.refused == old(pool.refused) + if ok then 0 else 1
    ensures ok ==> AllUnpacked(t, src)
  {
    t := src;
    var u1, u2, u3, u4, a, b, c, d;
    ok, u1, u2, a, b := UnpackTwo(pool, src.commandLine, src.imageFileName, data, 0, bytes);
    t := t.(commandLine := u1, imageFileName := u2);
    if ok {
      ok, u3, u4, c, d := UnpackTwo(pool, src.accountName, src.accountDomain, data, b, bytes);
      t := t.(accountName := u3, accountDomain := u4);
      if ok {
        CutsJoin(Contents(u1), Contents(u2), Contents(u3), Contents(u4), src, bytes, a, b, c, d);
      }
    }
  }

  method FreeBuffer(pool: Pool, b: array?<Byte>)
    requires pool.Valid() && Block(b) <= pool.Live()
    modifies pool
    ensures pool.Valid() && pool.taken == old(pool.taken) && pool.freed == old(pool.freed) + Block(b)
    ensures pool.refused == old(pool.refused)
  {
    if b != null {
      pool.Free(b);
    }
  }

  method FreeStrings(pool: Pool, t: Strings)
    requires pool.Valid() && AllApart(t) && Blocks(t) <= pool.Live()
    modifies pool
    ensures pool.Valid() && pool.taken == old(pool.taken) && pool.freed == old(pool.freed) + Blocks(t)
    ensures pool.refused == old(pool.refused)
  {
    FreeBuffer(pool, t.commandLine.buffer);
    FreeBuffer(pool, t.imageFileName.buffer);
    FreeBuffer(pool, t.accountName.buffer);
    FreeBuffer(pool, t.accountDomain.buffer);
  }

  ghost function StringsOf(ctx: ProcessContext): Strings
    reads ctx
  {
    Strings(ctx.commandLine, ctx.imageFileName, ctx.accountName, ctx.accountDomain)
  }

  /** Every pool block a test context is responsible for. */
  ghost function OwnedBlocks(c: TestContext): set<object>
    reads c, c.base
  {
    {c} + (Block(c.base.commandLine.buffer) + Block(c.base.imageFileName.buffer)) + AccountBlocks(c)
  }

  /** The same before any account buffer was replaced. */
  ghost function StartBlocks(c: TestContext): set<object>
    reads c.base
  {
    {c} + Blocks(StringsOf(c.base))
  }

  ghost function AccountBlocks(c: TestContext): set<object>
    reads c, c.base
  {
    Block(c.nameInitial) + Block(c.base.accountName.buffer) + Block(c.domainInitial) + Block(c.base.accountDomain.buffer)
  }

  /** context_create: the arguments are rejected exactly when the context is missing, the data is too
      short for the lengths, or a length exceeds its maximum; otherwise the context holds the four
      strings that the data is made of, or nothing at all was taken from the pool. */
  method ContextCreate(pool: Pool, dataIn: array?<Byte>, contextIn: Option<InputContext>)
    returns (result: EbpfResult, context: TestContext?)
    requires pool.Valid()
    requires contextIn.Some? ==> LengthsOnly(Given(contextIn.value))
    modifies pool
    ensures pool.Valid() && (result == EbpfSuccess <==> context != null)
    ensures result == InvalidArgument <==> !Acceptable(dataIn, contextIn)
    ensures result == InvalidArgument <==>
            || contextIn.None? || dataIn == null
            || var i := contextIn.value;
            || dataIn.Length < i.commandLine.length + i.imageFileName.length + i.accountName.length + i.accountDomain.length
            || i.commandLine.length > i.commandLine.maximumLength || i.imageFileName.length > i.imageFileName.maximumLength
            || i.accountName.length > i.accountName.maximumLength || i.accountDomain.length > i.accountDomain.maximumLength
    ensures result == NoMemory <==> pool.refused > old(pool.refused)
    ensures pool.refused >= old(pool.refused)
    ensures result != EbpfSuccess ==> pool.Live() == old(pool.Live())
    ensures old(pool.taken) <= pool.taken && fresh(pool.taken - old(pool.taken))
    ensures result == EbpfSuccess ==> dataIn != null && contextIn.Some? && Built(dataIn[..], contextIn.value, context) && fresh(context) && fresh(context.base)
    ensures result == EbpfSuccess ==> pool.Live() == old(pool.Live()) + StartBlocks(context) && fresh(StartBlocks(context))
  {
    context := null;
    if contextIn.None? {
      return InvalidArgument, null;
    }
    var input := contextIn.value;
    var src := Given(input);
    if dataIn == null || dataIn.Length < TotalLength(src) {
      return InvalidArgument, null;
    }
    if !LengthsFit(src) {
      return InvalidArgument, null;
    }
    result, context := CreateFrom(pool, dataIn, input, dataIn[..]);
  }

  function Given(input: InputContext): Strings {
    Strings(input.commandLine, input.imageFileName, input.accountName, input.accountDomain)
  }

  predicate Acceptable(dataIn: array?<Byte>, contextIn: Option<InputContext>) {
    contextIn.Some? && dataIn != null && TotalLength(Given(contextIn.value)) <= dataIn.Length
    && LengthsFit(Given(contextIn.value))
  }

  /** A freshly created context. */
  ghost predicate Built(data: seq<Byte>, input: InputContext, c: TestContext)
    reads c, c.base, c.base.commandLine.buffer, c.base.imageFileName.buffer, c.base.accountName.buffer,
          c.base.accountDomain.buffer
  {
    && c.base.Valid() && AllApart(StringsOf(c.base))
    && c.nameInitial == c.base.accountName.buffer && c.domainInitial == c.base.accountDomain.buffer
    && TotalLength(Given(input)) <= |data|
    && Pieces(StringsOf(c.base), Given(input), data)
    && AllUnpacked(StringsOf(c.base), Given(input))
    && c.base.accountLookupDone == input.lookupDone && c.base.md == input.md
    && c.base.tokenSidSize == input.tokenSidSize && c.base.sidValid == input.sidValid
  }

  /** Hand the strings over to the context. */
  method Assemble(c: TestContext, t: Strings, ghost input: InputContext, ghost bytes: seq<Byte>)
    requires AllSound(t) && AllApart(t) && AllUnpacked(t, Given(input))
    requires TotalLength(Given(input)) <= |bytes| && Pieces(t, Given(input), bytes)
    requires c.base.accountLookupDone == input.lookupDone && c.base.md == input.md
    requires c.base.tokenSidSize == input.tokenSidSize && c.base.sidValid == input.sidValid
    modifies c, c.base
    ensures StringsOf(c.base) == t && Built(bytes, input, c)
  {
    c.base.commandLine, c.base.imageFileName := t.commandLine, t.imageFileName;
    c.base.accountName, c.base.accountDomain := t.accountName, t.accountDomain;
    c.nameInitial := c.base.accountName.buffer;
    c.domainInitial := c.base.accountDomain.buffer;
  }

  /** The failure path: what was unpacked and the context itself are given back. */
  method DropUnpacked(pool: Pool, c: TestContext, t: Strings)
    requires pool.Valid() && AllApart(t) && Blocks(t) <= pool.Live() && c in pool.Live() && c !in Blocks(t)
    modifies pool
    ensures pool.Valid() && pool.taken == old(pool.taken) && pool.refused == old(pool.refused)
    ensures pool.Live() == old(pool.Live()) - ({c} + Blocks(t))
  {
    FreeStrings(pool, t);
    pool.Free(c);
  }

  method CreateFrom(pool: Pool, data: array<Byte>, input: InputContext, ghost bytes: seq<Byte>)
    returns (result: EbpfResult, context: TestContext?)
    requires pool.Valid() && LengthsOnly(Given(input)) && LengthsFit(Given(input))
    requires bytes == data[..] && TotalLength(Given(input)) <= |bytes|
    modifies pool
    ensures pool.Valid() && result != InvalidArgument && (result == EbpfSuccess <==> context != null)
    ensures result == NoMemory <==> pool.refused > old(pool.refused)
    ensures pool.refused >= old(pool.refused)
    ensures result != EbpfSuccess ==> pool.Live() == old(pool.Live())
    ensures old(pool.taken) <= pool.taken && fresh(pool.taken - old(pool.taken))
    ensures result == EbpfSuccess ==> Built(bytes, input, context) && fresh(context) && fresh(context.base)
    ensures result == EbpfSuccess ==> pool.Live() == old(pool.Live()) + StartBlocks(context) && fresh(StartBlocks(context))
  {
    var base := new ProcessContext(input.md, input.commandLine, input.imageFileName, input.accountName, input.accountDomain,
                                   input.lookupDone, input.tokenSidSize, input.sidValid);
    context := new TestContext(base);
    var ok := pool.AllocateFor(context);
    if !ok {
      return NoMemory, null;
    }
    ok := FillContext(pool, context, data, input, bytes);
    if !ok {
      return NoMemory, null;
    }
    return EbpfSuccess, context;
  }

  /** Unpack the strings into a new context; on failure the context itself is given back, too. */
  method FillContext(pool: Pool, c: TestContext, data: array<Byte>, input: InputContext, ghost bytes: seq<Byte>)
    returns (ok: bool)
    requires pool.Valid() && LengthsOnly(Given(input)) && LengthsFit(Given(input)) && c in pool.Live()
    requires bytes == data[..] && TotalLength(Given(input)) <= |bytes|
    requires c.base.accountLookupDone == input.lookupDone && c.base.md == input.md
    requires c.base.tokenSidSize == input.tokenSidSize && c.base.sidValid == input.sidValid
    modifies pool, c, c.base
    ensures pool.Valid() && pool.refused == old(pool.refused) + if ok then 0 else 1
    ensures old(pool.taken) <= pool.taken && fresh(pool.taken - old(pool.taken))
    ensures ok ==> Built(bytes, input, c) && fresh(Blocks(StringsOf(c.base)))
    ensures ok ==> pool.Live() == old(pool.Live()) + Blocks(StringsOf(c.base))
    ensures !ok ==> pool.Live() == old(pool.Live()) - {c}
  {
    var t;
    ok, t := Unpack(pool, Given(input), data, bytes);
    if ok {
      Assemble(c, t, input, bytes);
    } else {
      DropUnpacked(pool, c, t);
    }
  }

  // ------------------------------------------------------------------ context_destroy

  /** Append one string to the packed output. */
  method Append(dest: array<Byte>, offset: nat, u: UnicodeString) returns (offset': nat)
    requires Sound(u) && offset + u.length <= dest.Length && dest != u.buffer
    modifies dest
    ensures offset' == offset + u.length
    ensures dest[..offset'] == old(dest[..offset]) + Contents(u)
    ensures forall i :: offset' <= i < dest.Length ==> dest[i] == old(dest[i])
  {
    offset' := offset;
    if u.length > 0 && u.buffer != null {
      forall i | 0 <= i < u.length {
        dest[offset + i] := u.buffer[i];
      }
      offset' := offset + u.length;
      assert dest[..offset] == old(dest[..offset]) && dest[offset..offset'] == Contents(u);
    }
  }

  ghost predicate Elsewhere(dest: array<Byte>, t: Strings) {
    && dest != t.commandLine.buffer && dest != t.imageFileName.buffer
    && dest != t.accountName.buffer && dest != t.accountDomain.buffer
  }

  /** Pack the four strings in order: exactly their bytes, and nothing past them. */
  method Pack(dest: array<Byte>, t: Strings)
    requires AllSound(t) && Elsewhere(dest, t) && TotalLength(t) <= dest.Length
    modifies dest
    ensures dest[..TotalLength(t)] == Packed(t)
    ensures forall i :: TotalLength(t) <= i < dest.Length ==> dest[i] == old(dest[i])
  {
    ghost var cmd, img := Contents(t.commandLine), Contents(t.imageFileName);
    ghost var name, domain := Contents(t.accountName), Contents(t.accountDomain);
    var offset := Append(dest, 0, t.commandLine);
    assert dest[..offset] == cmd;
    offset := Append(dest, offset, t.imageFileName);
    assert dest[..offset] == cmd + img;
    offset := Append(dest, offset, t.accountName);
    assert dest[..offset] == cmd + img + name;
    offset := Append(dest, offset, t.accountDomain);
  }

  /** No block of the context is counted twice. */
  ghost predicate Separate(c: TestContext)
    reads c, c.base
  {
    && Apart(c.base.commandLine, c.base.imageFileName)
    && (Block(c.base.commandLine.buffer) + Block(c.base.imageFileName.buffer)) !! AccountBlocks(c)
    && (Block(c.nameInitial) + Block(c.base.accountName.buffer)) !! (Block(c.domainInitial) + Block(c.base.accountDomain.buffer))
  }

  /** The account buffers: an initial buffer that was replaced, and the current one. */
  method FreeAccountBuffers(pool: Pool, nameInitial: array?<Byte>, name: array?<Byte>,
                            domainInitial: array?<Byte>, domain: array?<Byte>)
    requires pool.Valid() && Block(nameInitial) + Block(name) + Block(domainInitial) + Block(domain) <= pool.Live()
    requires (Block(nameInitial) + Block(name)) !! (Block(domainInitial) + Block(domain))
    modifies pool
    ensures pool.Valid() && pool.taken == old(pool.taken) && pool.refused == old(pool.refused)
    ensures pool.freed == old(pool.freed) + (Block(nameInitial) + Block(name) + Block(domainInitial) + Block(domain))
  {
    if nameInitial != null && nameInitial != name {
      pool.Free(nameInitial);
    }
    if domainInitial != null && domainInitial != domain {
      pool.Free(domainInitial);
    }
    FreeBuffer(pool, name);
    FreeBuffer(pool, domain);
  }

  /** Free every block of the context, whichever of the account buffers were replaced. */
  method FreeContext(pool: Pool, c: TestContext)
    requires pool.Valid() && Separate(c) && OwnedBlocks(c) <= pool.Live()
    modifies pool
    ensures pool.Valid() && pool.taken == old(pool.taken) && pool.freed == old(pool.freed) + OwnedBlocks(c)
    ensures pool.refused == old(pool.refused)
  {
    FreeBuffer(pool, c.base.commandLine.buffer);
    FreeBuffer(pool, c.base.imageFileName.buffer);
    FreeAccountBuffers(pool, c.nameInitial, c.base.accountName.buffer, c.domainInitial, c.base.accountDomain.buffer);
    pool.Free(c);
  }

  /** What is in the caller's output buffer, if there is one. */
  ghost function Held(dataOut: array?<Byte>): seq<Byte>
    reads dataOut
  {
    if dataOut == null then [] else dataOut[..]
  }

  /** What `out` leaves in the caller's output buffer, which held `before`: all of it and nothing past
      it, or nothing. */
  ghost predicate Delivered(out: seq<Byte>, dataOut: array?<Byte>, before: seq<Byte>, dataSizeOut: nat, dataSize: nat)
    reads dataOut
  {
    if dataOut != null && |out| <= dataSizeOut <= |before|
    then dataSize == |out| && Held(dataOut) == out + before[|out|..]
    else dataSize == 0 && Held(dataOut) == before
  }

  function Cleared(u: UnicodeString): UnicodeString { u.(buffer := null) }

  /** The context structure as it is copied to the caller: every buffer address is cleared. */
  function Described(t: Strings, lookupDone: bool, tokenSidSize: nat, sidValid: bool, md: ProcessMd): InputContext {
    InputContext(Cleared(t.commandLine), Cleared(t.imageFileName), Cleared(t.accountName), Cleared(t.accountDomain),
                 lookupDone, tokenSidSize, sidValid, md)
  }

  ghost function DescriptionOf(ctx: ProcessContext): InputContext
    reads ctx
  {
    Described(StringsOf(ctx), ctx.accountLookupDone, ctx.tokenSidSize, ctx.sidValid, ctx.md)
  }

  /** The context that goes back to the caller has the lengths of the four strings that were packed, so the
      two can be given to context_create again. */
  ghost predicate Describes(out: InputContext, cmd: seq<Byte>, img: seq<Byte>, name: seq<Byte>, domain: seq<Byte>) {
    && LengthsOnly(Given(out)) && LengthsFit(Given(out))
    && out.commandLine.length == |cmd| && out.imageFileName.length == |img|
    && out.accountName.length == |name| && out.accountDomain.length == |domain|
  }

  /** Its lengths cut the packed bytes, whatever follows them, into exactly the four strings. */
  lemma DescribedCuts(out: InputContext, cmd: seq<Byte>, img: seq<Byte>, name: seq<Byte>, domain: seq<Byte>, data: seq<Byte>)
    requires Describes(out, cmd, img, name, domain) && cmd + img + name + domain <= data
    ensures TotalLength(Given(out)) <= |data| && Cuts(cmd, img, name, domain, Given(out), data)
  {
    PrefixCut(cmd + img + name, domain, data);
    PrefixCut(cmd + img, name, data);
    PrefixCut(cmd, img, data);
  }

  lemma PrefixCut(x: seq<Byte>, y: seq<Byte>, data: seq<Byte>)
    requires x + y <= data
    ensures x <= data && x == data[0..|x|] && y == data[|x|..|x| + |y|]
  {
    assert data[..|x| + |y|] == x + y;
    assert data[0..|x|] == data[..|x| + |y|][..|x|];
    assert data[|x|..|x| + |y|] == data[..|x| + |y|][|x|..];
  }

  /** context_destroy: pack the strings if there is room, report what was written, free everything.
      `contextRoom` says whether the caller has room for the context structure. */
  method ContextDestroy(pool: Pool, c: TestContext?, dataOut: array?<Byte>, dataSizeOut: nat, contextRoom: bool)
    returns (dataSize: nat, contextOut: Option<InputContext>)
    requires pool.Valid() && (dataOut != null ==> dataSizeOut <= dataOut.Length)
    requires c != null ==> c.base.Valid() && Separate(c) && OwnedBlocks(c) <= pool.Live()
    requires c != null && dataOut != null ==> Elsewhere(dataOut, StringsOf(c.base))
    modifies pool, dataOut
    ensures pool.Valid() && pool.taken == old(pool.taken) && pool.refused == old(pool.refused)
    ensures pool.freed == old(pool.freed) + if c == null then {} else OwnedBlocks(c)
    ensures c == null ==> dataSize == dataSizeOut && contextOut.None?
    ensures c != null ==> Delivered(old(Packed(StringsOf(c.base))), dataOut, old(Held(dataOut)), dataSizeOut, dataSize)
    ensures c != null ==> contextOut == if contextRoom then Some(DescriptionOf(c.base)) else None
    ensures c != null && contextRoom ==>
              var out := contextOut.value;
              && out.commandLine == c.base.commandLine.(buffer := null)
              && out.imageFileName == c.base.imageFileName.(buffer := null)
              && out.accountName == c.base.accountName.(buffer := null)
              && out.accountDomain == c.base.accountDomain.(buffer := null)
              && out.lookupDone == c.base.accountLookupDone && out.md == c.base.md
              && out.tokenSidSize == c.base.tokenSidSize && out.sidValid == c.base.sidValid
  {
    contextOut := None;
    if c == null {
      return dataSizeOut, None;
    }
    var t := Strings(c.base.commandLine, c.base.imageFileName, c.base.accountName, c.base.accountDomain);
    if contextRoom {
      contextOut := Some(Described(t, c.base.accountLookupDone, c.base.tokenSidSize, c.base.sidValid, c.base.md));
    }
    assert |Packed(t)| == TotalLength(t);
    if dataOut != null && dataSizeOut >= TotalLength(t) {
      Pack(dataOut, t);
      dataSize := TotalLength(t);
    } else {
      dataSize := 0;
    }
    FreeContext(pool, c);
  }

  // ------------------------------------------------------------------ whole runs

  /** What a run packs at the end: the command line and the image path of the input, followed by the
      account strings. */
  ghost function Output(input: InputContext, data: seq<Byte>, name: seq<Byte>, domain: seq<Byte>): seq<Byte>
    requires TotalLength(Given(input)) <= |data|
  {
    data[..input.commandLine.length + input.imageFileName.length] + name + domain
  }

  predicate HasSid(input: InputContext) { input.tokenSidSize != 0 && input.sidValid }

  ghost function ImageBytes(input: InputContext, data: seq<Byte>): seq<Byte>
    requires TotalLength(Given(input)) <= |data|
  {
    data[input.commandLine.length..input.commandLine.length + input.imageFileName.length]
  }

  /** The account of a created context: the descriptors that were unpacked for the input. */
  predicate StartsAs(s: Snapshot, input: InputContext) {
    s.done == input.lookupDone && Unpacked(s.name, input.accountName) && Unpacked(s.domain, input.accountDomain)
  }

  /** The account strings at the end of a run: those of the input if no resolution was started, else
      what the last lookup found if it succeeded, and nothing if not. */
  ghost predicate FinalAccount(answer: nat -> Lookup, input: InputContext, data: seq<Byte>, calls: seq<Call>,
                               s: Snapshot, s': Snapshot)
    requires TotalLength(Given(input)) <= |data|
  {
    if input.lookupDone || OnlyImagePath(calls) then
      Output(input, data, s'.nameBytes, s'.domainBytes) == data[..TotalLength(Given(input))]
    else if Succeeds(answer, HasSid(input), s, s') then
      s'.calls > 0 && answer(s'.calls - 1).Found?
      && s'.nameBytes == answer(s'.calls - 1).name && s'.domainBytes == answer(s'.calls - 1).domain
    else
      s'.nameBytes == s'.domainBytes == []
  }

  lemma FinalAccountOf(answer: nat -> Lookup, image: seq<Byte>, os: seq<Observation>, calls: seq<Call>,
                       s: Snapshot, s': Snapshot, input: InputContext, data: seq<Byte>)
    requires Stretch(answer, HasSid(input), image, os, calls, s, s') && s.done == input.lookupDone
    requires TotalLength(Given(input)) <= |data|
    requires Output(input, data, s.nameBytes, s.domainBytes) == data[..TotalLength(Given(input))]
    ensures FinalAccount(answer, input, data, calls, s, s')
  {
  }

  lemma OutputIs(input: InputContext, data: seq<Byte>, cmd: seq<Byte>, img: seq<Byte>, name: seq<Byte>, domain: seq<Byte>)
    requires TotalLength(Given(input)) <= |data| && cmd == data[..input.commandLine.length]
    requires img == data[input.commandLine.length..input.commandLine.length + input.imageFileName.length]
    ensures cmd + img + name + domain == Output(input, data, name, domain)
  {
    assert cmd + img == data[..input.commandLine.length + input.imageFileName.length];
  }

  lemma OwnedIs(c: TestContext, before: Strings, s: Snapshot, s': Snapshot)
    requires s.name == before.accountName && s.domain == before.accountDomain
    requires c.nameInitial == before.accountName.buffer && c.domainInitial == before.accountDomain.buffer
    requires c.base.commandLine == before.commandLine && c.base.imageFileName == before.imageFileName
    requires c.base.accountName == s'.name && c.base.accountDomain == s'.domain
    ensures OwnedBlocks(c) == ({c} + Blocks(before)) + MovedBoth(s'.name, s.name, s'.domain, s.domain)
  {
  }

  lemma BlocksApart(c: TestContext, before: Strings, s: Snapshot, s': Snapshot)
    requires MovedBoth(s'.name, s.name, s'.domain, s.domain) !! Blocks(before)
    requires AllApart(before) && s.name == before.accountName && s.domain == before.accountDomain
    requires c.nameInitial == before.accountName.buffer && c.domainInitial == before.accountDomain.buffer
    requires c.base.commandLine == before.commandLine && c.base.imageFileName == before.imageFileName
    requires c.base.accountName == s'.name && c.base.accountDomain == s'.domain && Apart(s'.name, s'.domain)
    ensures Separate(c)
  {
  }

  /** After a program ran on a fresh context its blocks are still told apart and all live. */
  lemma StillSeparate(c: TestContext, before: Strings, s: Snapshot, s': Snapshot, live: set<object>)
    requires var moved := MovedBoth(s'.name, s.name, s'.domain, s.domain);
             Live(s') == Live(s) + moved && Live(s) <= s.taken && moved !! s.taken
    requires AllApart(before) && s.name == before.accountName && s.domain == before.accountDomain
    requires c.nameInitial == before.accountName.buffer && c.domainInitial == before.accountDomain.buffer
    requires c.base.commandLine == before.commandLine && c.base.imageFileName == before.imageFileName
    requires c.base.accountName == s'.name && c.base.accountDomain == s'.domain && Apart(s'.name, s'.domain)
    requires Live(s) == live + ({c} + Blocks(before)) && live !! ({c} + Blocks(before))
    ensures Separate(c)
    ensures Live(s') == live + OwnedBlocks(c) && live !! OwnedBlocks(c)
  {
    OwnedIs(c, before, s, s');
    BlocksApart(c, before, s, s');
  }

  /** What a run of calls on a context created from `input` amounts to. */
  ghost predicate Conducted(answer: nat -> Lookup, input: InputContext, data: seq<Byte>,
                            os: seq<Observation>, calls: seq<Call>, s: Snapshot, s': Snapshot)
    requires TotalLength(Given(input)) <= |data|
  {
    && StartsAs(s, input)
    && Stretch(answer, HasSid(input), ImageBytes(input, data), os, calls, s, s')
    && FinalAccount(answer, input, data, calls, s, s')
  }

  /** Any helper calls on a created context: the command line and the image path stay those of the
      input. */
  method RunCalls(pool: Pool, authority: Authority, c: TestContext, calls: seq<Call>,
                  ghost data: seq<Byte>, ghost input: InputContext)
    returns (os: seq<Observation>, ghost s: Snapshot, ghost s': Snapshot)
    requires pool.Valid() && Built(data, input, c) && forall k :: Honest(authority.answer(k))
    requires forall i :: 0 <= i < |calls| ==> calls[i].length <= calls[i].room
    modifies pool, authority`calls, c.base`accountName, c.base`accountDomain, c.base`accountLookupDone,
             c.base.accountName.buffer, c.base.accountDomain.buffer
    ensures pool.Valid() && c.base.Valid() && c.base.BuffersKeptOrNew()
    ensures Contents(c.base.commandLine) == data[..input.commandLine.length]
    ensures Contents(c.base.imageFileName) == ImageBytes(input, data)
    ensures s == old(Now(pool, authority, c.base)) && s' == Now(pool, authority, c.base)
    ensures Stretch(authority.answer, HasSid(input), ImageBytes(input, data), os, calls, s, s')
  {
    s := Now(pool, authority, c.base);
    os := RunProgram(pool, authority, c.base, calls);
    s' := Now(pool, authority, c.base);
  }

  /** What goes back to the caller afterwards describes the strings the context then holds. */
  method RunDescribed(pool: Pool, authority: Authority, c: TestContext, calls: seq<Call>,
                      ghost data: seq<Byte>, ghost input: InputContext)
    returns (os: seq<Observation>, ghost s: Snapshot, ghost s': Snapshot)
    requires pool.Valid() && Built(data, input, c) && forall k :: Honest(authority.answer(k))
    requires forall i :: 0 <= i < |calls| ==> calls[i].length <= calls[i].room
    modifies pool, authority`calls, c.base`accountName, c.base`accountDomain, c.base`accountLookupDone,
             c.base.accountName.buffer, c.base.accountDomain.buffer
    ensures pool.Valid() && c.base.Valid() && c.base.BuffersKeptOrNew()
    ensures Contents(c.base.commandLine) == data[..input.commandLine.length]
    ensures Contents(c.base.imageFileName) == ImageBytes(input, data)
    ensures s == old(Now(pool, authority, c.base)) && s' == Now(pool, authority, c.base)
    ensures Stretch(authority.answer, HasSid(input), ImageBytes(input, data), os, calls, s, s')
    ensures Returned(DescriptionOf(c.base), input, s')
    ensures Describes(DescriptionOf(c.base), data[..input.commandLine.length], ImageBytes(input, data), s'.nameBytes, s'.domainBytes)
  {
    ghost var t := StringsOf(c.base);
    os, s, s' := RunCalls(pool, authority, c, calls, data, input);
    EndDescribed(t, DescriptionOf(c.base), input, data, s');
  }

  lemma ConductedOf(answer: nat -> Lookup, c: TestContext, input: InputContext, data: seq<Byte>, s: Snapshot)
    requires Built(data, input, c)
    requires s.done == c.base.accountLookupDone && s.name == c.base.accountName && s.domain == c.base.accountDomain
    requires s.nameBytes == Contents(s.name) && s.domainBytes == Contents(s.domain)
    ensures StartsAs(s, input)
    ensures Output(input, data, s.nameBytes, s.domainBytes) == data[..TotalLength(Given(input))]
  {
    PiecesPack(StringsOf(c.base), Given(input), data);
    OutputIs(input, data, Contents(c.base.commandLine), ImageBytes(input, data), s.nameBytes, s.domainBytes);
  }

  /** The description of the context at the end of a run that started with the strings `t`. */
  lemma EndDescribed(t: Strings, out: InputContext, input: InputContext, data: seq<Byte>, s': Snapshot)
    requires AllSound(t) && AllUnpacked(t, Given(input)) && TotalLength(Given(input)) <= |data|
    requires Sound(s'.name) && Sound(s'.domain) && |s'.nameBytes| == s'.name.length && |s'.domainBytes| == s'.domain.length
    requires out == Described(Strings(t.commandLine, t.imageFileName, s'.name, s'.domain), s'.done,
                              input.tokenSidSize, input.sidValid, input.md)
    ensures Returned(out, input, s')
    ensures Describes(out, data[..input.commandLine.length], ImageBytes(input, data), s'.nameBytes, s'.domainBytes)
  {
  }

  /** At the end the context holds the command line and the image path of the input and the account
      strings, in blocks that are told apart. */
  method RunOnContext(pool: Pool, authority: Authority, c: TestContext, calls: seq<Call>, ghost live: set<object>,
                      ghost data: seq<Byte>, ghost input: InputContext)
    returns (os: seq<Observation>, ghost s: Snapshot, ghost s': Snapshot)
    requires pool.Valid() && Built(data, input, c) && forall k :: Honest(authority.answer(k))
    requires forall i :: 0 <= i < |calls| ==> calls[i].length <= calls[i].room
    requires pool.Live() == live + StartBlocks(c) && live !! StartBlocks(c)
    modifies pool, authority`calls, c.base, c.base.accountName.buffer, c.base.accountDomain.buffer
    ensures pool.Valid() && c.base.Valid() && Separate(c)
    ensures pool.Live() == live + OwnedBlocks(c) && live !! OwnedBlocks(c)
    ensures c.base.commandLine == old(c.base.commandLine) && c.base.imageFileName == old(c.base.imageFileName)
    ensures c.base.BuffersKeptOrNew()
    ensures s == old(Now(pool, authority, c.base)) && s' == Now(pool, authority, c.base)
    ensures Conducted(authority.answer, input, data, os, calls, s, s')
    ensures Packed(StringsOf(c.base)) == Output(input, data, s'.nameBytes, s'.domainBytes)
    ensures Returned(DescriptionOf(c.base), input, s')
    ensures Describes(DescriptionOf(c.base), data[..input.commandLine.length], ImageBytes(input, data), s'.nameBytes, s'.domainBytes)
  {
    ghost var before, image := StringsOf(c.base), ImageBytes(input, data);
    ConductedOf(authority.answer, c, input, data, Now(pool, authority, c.base));
    os, s, s' := RunDescribed(pool, authority, c, calls, data, input);
    FinalAccountOf(authority.answer, image, os, calls, s, s', input, data);
    StretchLive(authority.answer, HasSid(input), image, os, calls, s, s');
    StillSeparate(c, before, s, s', live);
    OutputIs(input, data, Contents(c.base.commandLine), image, s'.nameBytes, s'.domainBytes);
  }

  /** What goes back to the caller of a run: the descriptors of the command line and the image path as they
      came in, those of the account strings at the end of the run, and the other fields as they came in. */
  predicate Returned(out: InputContext, input: InputContext, s': Snapshot) {
    && out.commandLine == (if input.commandLine.length == 0 then NullString else Cleared(input.commandLine))
    && out.imageFileName == (if input.imageFileName.length == 0 then NullString else Cleared(input.imageFileName))
    && out.accountName == UnicodeString(s'.name.length, s'.name.maximumLength, null)
    && out.accountDomain == UnicodeString(s'.domain.length, s'.domain.maximumLength, null)
    && out.lookupDone == s'.done && out.md == input.md
    && out.tokenSidSize == input.tokenSidSize && out.sidValid == input.sidValid
  }

  /** The description cuts what the output buffer holds into the command line and the image path of the
      input and the account strings at the end of the run. */
  ghost predicate ReadsBack(out: InputContext, input: InputContext, data: seq<Byte>, s': Snapshot, held: seq<Byte>, size: nat)
    requires TotalLength(Given(input)) <= |data|
  {
    && LengthsOnly(Given(out)) && LengthsFit(Given(out)) && TotalLength(Given(out)) == size <= |held|
    && Cuts(data[..input.commandLine.length], ImageBytes(input, data), s'.nameBytes, s'.domainBytes, Given(out), held)
  }

  lemma DeliveredReadsBack(out: InputContext, input: InputContext, data: seq<Byte>, s': Snapshot, held: seq<Byte>, size: nat)
    requires TotalLength(Given(input)) <= |data|
    requires Describes(out, data[..input.commandLine.length], ImageBytes(input, data), s'.nameBytes, s'.domainBytes)
    requires Output(input, data, s'.nameBytes, s'.domainBytes) <= held
    requires size == |Output(input, data, s'.nameBytes, s'.domainBytes)|
    ensures ReadsBack(out, input, data, s', held, size)
  {
    var cmd, img := data[..input.commandLine.length], ImageBytes(input, data);
    OutputIs(input, data, cmd, img, s'.nameBytes, s'.domainBytes);
    DescribedCuts(out, cmd, img, s'.nameBytes, s'.domainBytes, held);
  }

  /** The destruction of a context that packs to `out`: nothing but `live` is left of the pool. */
  method Finish(pool: Pool, c: TestContext, dataOut: array?<Byte>, dataSizeOut: nat, contextRoom: bool,
                ghost live: set<object>, ghost before: seq<Byte>, ghost out: seq<Byte>, ghost desc: InputContext)
    returns (dataSize: nat, contextOut: Option<InputContext>)
    requires pool.Valid() && c.base.Valid() && Separate(c) && Packed(StringsOf(c.base)) == out && Held(dataOut) == before
    requires DescriptionOf(c.base) == desc
    requires pool.Live() == live + OwnedBlocks(c) && live !! OwnedBlocks(c)
    requires dataOut != null ==> dataSizeOut <= dataOut.Length && Elsewhere(dataOut, StringsOf(c.base))
    modifies pool, dataOut
    ensures pool.Valid() && pool.Live() == live && pool.refused == old(pool.refused)
    ensures Delivered(out, dataOut, before, dataSizeOut, dataSize)
    ensures contextOut == if contextRoom then Some(desc) else None
  {
    dataSize, contextOut := ContextDestroy(pool, c, dataOut, dataSizeOut, contextRoom);
  }

  /** Any helper calls on a created context, then its destruction. */
  method RunAndDestroy(pool: Pool, authority: Authority, c: TestContext, calls: seq<Call>, ghost live: set<object>,
                       ghost data: seq<Byte>, ghost input: InputContext, dataOut: array?<Byte>, dataSizeOut: nat,
                       contextRoom: bool)
    returns (os: seq<Observation>, dataSize: nat, contextOut: Option<InputContext>, ghost s: Snapshot, ghost s': Snapshot)
    requires pool.Valid() && Built(data, input, c) && forall k :: Honest(authority.answer(k))
    requires forall i :: 0 <= i < |calls| ==> calls[i].length <= calls[i].room
    requires pool.Live() == live + StartBlocks(c) && live !! StartBlocks(c)
    requires dataOut != null ==> dataSizeOut <= dataOut.Length && Elsewhere(dataOut, StringsOf(c.base))
    modifies pool, authority`calls, c.base, c.base.accountName.buffer, c.base.accountDomain.buffer, dataOut
    ensures pool.Valid() && pool.Live() == live
    ensures s.calls == old(authority.calls) && s'.calls == authority.calls
    ensures s.refused == old(pool.refused) && s'.refused == pool.refused
    ensures Conducted(authority.answer, input, data, os, calls, s, s')
    ensures Delivered(Output(input, data, s'.nameBytes, s'.domainBytes), dataOut, old(Held(dataOut)), dataSizeOut, dataSize)
    ensures (contextOut.Some? <==> contextRoom) && (contextOut.Some? ==> Returned(contextOut.value, input, s'))
    ensures contextOut.Some? ==>
              Describes(contextOut.value, data[..input.commandLine.length], ImageBytes(input, data), s'.nameBytes, s'.domainBytes)
  {
    ghost var before := Held(dataOut);
    os, s, s' := RunOnContext(pool, authority, c, calls, live, data, input);
    assert dataOut != null ==> Elsewhere(dataOut, StringsOf(c.base));
    dataSize, contextOut :=
      Finish(pool, c, dataOut, dataSizeOut, contextRoom, live, before, Output(input, data, s'.nameBytes, s'.domainBytes),
             DescriptionOf(c.base));
  }

  /** A whole bpf_prog_test_run: create, any helper calls, destroy.  Under every pattern of
      allocation and lookup failures the pool is left as it was found, the arguments are rejected
      exactly when they are unacceptable, the calls are observed as those of any program are, and the
      output is the input's own strings when no resolution was started, and else carries the resolved
      account or an empty one. */
  method TestRun(pool: Pool, authority: Authority, dataIn: array?<Byte>, contextIn: Option<InputContext>,
                 calls: seq<Call>, dataOut: array?<Byte>, dataSizeOut: nat, contextRoom: bool)
    returns (result: EbpfResult, os: seq<Observation>, dataSize: nat, contextOut: Option<InputContext>,
             ghost s: Snapshot, ghost s': Snapshot)
    requires pool.Valid() && forall k :: Honest(authority.answer(k))
    requires contextIn.Some? ==> LengthsOnly(Given(contextIn.value))
    requires forall i :: 0 <= i < |calls| ==> calls[i].length <= calls[i].room
    requires dataOut != null ==> dataSizeOut <= dataOut.Length
    modifies pool, authority`calls, dataOut
    ensures pool.Valid() && pool.Live() == old(pool.Live())
    ensures result == InvalidArgument <==> !Acceptable(dataIn, contextIn)
    ensures result == NoMemory ==> pool.refused > old(pool.refused)
    ensures result == EbpfSuccess ==>
              var input, data := contextIn.value, old(dataIn[..]);
              && s.calls == old(authority.calls) && s'.calls == authority.calls
              && s.refused == old(pool.refused) && s'.refused == pool.refused
              && Conducted(authority.answer, input, data, os, calls, s, s')
              && Delivered(Output(input, data, s'.nameBytes, s'.domainBytes), dataOut, old(Held(dataOut)), dataSizeOut, dataSize)
              && (contextOut.Some? <==> contextRoom)
              && (contextOut.Some? ==>
                    && Returned(contextOut.value, input, s')
                    && Describes(contextOut.value, data[..input.commandLine.length], ImageBytes(input, data),
                                 s'.nameBytes, s'.domainBytes))
              && (contextOut.Some? && dataOut != null && |Output(input, data, s'.nameBytes, s'.domainBytes)| <= dataSizeOut ==>
                    ReadsBack(contextOut.value, input, data, s', dataOut[..], dataSize))
  {
    ghost var live, data := pool.Live(), if dataIn == null then [] else dataIn[..];
    s := Snapshot(false, NullString, [], NullString, [], 0, {}, {}, 0);
    os, dataSize, contextOut, s' := [], 0, None, s;
    var c;
    result, c := ContextCreate(pool, dataIn, contextIn);
    if c != null {
      os, dataSize, contextOut, s, s' :=
        RunAndDestroy(pool, authority, c, calls, live, data, contextIn.value, dataOut, dataSizeOut, contextRoom);
      if contextOut.Some? && dataOut != null && |Output(contextIn.value, data, s'.nameBytes, s'.domainBytes)| <= dataSizeOut {
        DeliveredReadsBack(contextOut.value, contextIn.value, data, s', dataOut[..], dataSize);
      }
    }
  }

  /** The two outputs of a run can be given to context_create again: it never rejects them, and the context
      it makes holds the command line and the image path of the first input and the account strings and the
      lookup flag that the run ended with. */
  method RunAndRecreate(pool: Pool, authority: Authority, dataIn: array?<Byte>, contextIn: Option<InputContext>,
                        calls: seq<Call>, dataOut: array<Byte>)
    returns (result: EbpfResult, os: seq<Observation>, result': EbpfResult, c: TestContext?,
             ghost s: Snapshot, ghost s': Snapshot)
    requires pool.Valid() && forall k :: Honest(authority.answer(k))
    requires contextIn.Some? ==> LengthsOnly(Given(contextIn.value))
    requires forall i :: 0 <= i < |calls| ==> calls[i].length <= calls[i].room
    modifies pool, authority`calls, dataOut
    ensures pool.Valid() && (result == InvalidArgument <==> !Acceptable(dataIn, contextIn))
    ensures c == null ==> pool.Live() == old(pool.Live())
    ensures c != null ==> result == EbpfSuccess && pool.Live() == old(pool.Live()) + StartBlocks(c)
    ensures result == EbpfSuccess ==>
              var input, data := contextIn.value, old(dataIn[..]);
              && Conducted(authority.answer, input, data, os, calls, s, s')
              && (|Output(input, data, s'.nameBytes, s'.domainBytes)| <= dataOut.Length ==>
                    && result' != InvalidArgument && (result' == EbpfSuccess <==> c != null)
                    && (result' == NoMemory ==> pool.refused > old(pool.refused))
                    && (c != null ==> HoldsAgain(c.base, input, data, s')))
  {
    var dataSize, contextOut;
    ghost var data := if dataIn == null then [] else dataIn[..];
    result', c := NoMemory, null;
    result, os, dataSize, contextOut, s, s' :=
      TestRun(pool, authority, dataIn, contextIn, calls, dataOut, dataOut.Length, true);
    if result == EbpfSuccess {
      result', c := ContextCreate(pool, dataOut, contextOut);
    }
  }

  /** A context holds the strings of the input, with the account that a run left. */
  ghost predicate HoldsAgain(ctx: ProcessContext, input: InputContext, data: seq<Byte>, s': Snapshot)
    requires TotalLength(Given(input)) <= |data|
    reads ctx, ctx.commandLine.buffer, ctx.imageFileName.buffer, ctx.accountName.buffer, ctx.accountDomain.buffer
  {
    && ctx.Valid() && Contents(ctx.commandLine) == data[..input.commandLine.length]
    && Contents(ctx.imageFileName) == ImageBytes(input, data)
    && Contents(ctx.accountName) == s'.nameBytes && Contents(ctx.accountDomain) == s'.domainBytes
    && ctx.accountLookupDone == s'.done && ctx.md == input.md
    && ctx.tokenSidSize == input.tokenSidSize && ctx.sidValid == input.sidValid
  }
}
