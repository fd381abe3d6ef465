/** Whole requests, whatever the sizes of the chunks: what a PUT leaves behind and what a GET sends. */
module FileTransfers {
  import opened Basics
  import opened LittleEndian
  import opened FileServer

  /** Names a client may use: no newline or zero byte, and not too long. */
  predicate LegalName(name: Bytes) {
    |name| <= MAX_FILENAME && forall i: nat :: i < |name| ==> name[i] != NEWLINE && name[i] != 0
  }

  const SPACE: Byte := 32

  function PutRequest(name: Bytes, size: nat): Bytes {
    PUT_WORD + [SPACE] + name + [NEWLINE] + Encode(size, 8)
  }

  function GetRequest(name: Bytes): Bytes {
    GET_WORD + [SPACE] + name + [NEWLINE]
  }

  function Concat(parts: seq<Bytes>): Bytes {
    if parts == [] then [] else parts[0] + Concat(parts[1..])
  }

  /** The parts reach exactly `left` bytes at the end of some part, and none after the first is empty
      before that. */
  predicate Accepts(left: nat, parts: seq<Bytes>) {
    parts != [] &&
    if |parts[0]| >= left then |parts[0]| == left
    else |parts| > 1 && parts[1] != [] && Accepts(left - |parts[0]|, parts[1..])
  }

  lemma SliceParts(buffer: Bytes, at: nat, n: nat, a: Bytes, b: Bytes)
    requires at <= n <= |buffer| && buffer[at..n] == a + b
    ensures at + |a| <= n && buffer[at..at + |a|] == a && buffer[at + |a|..n] == b
  {
    forall i: nat | i < |a| ensures buffer[at + i] == a[i] {
      assert buffer[at..n][i] == a[i];
    }
    forall i: nat | i < |b| ensures buffer[at + |a| + i] == b[i] {
      assert buffer[at..n][|a| + i] == b[i];
    }
  }

  /** A name behind a three-letter verb is found in the buffer. */
  lemma NameFound(buffer: Bytes, word: Bytes, name: Bytes, rest: Bytes, n: nat)
    requires LegalName(name) && |word| == 3 && n <= |buffer|
    requires buffer[0..n] == word + ([SPACE] + (name + ([NEWLINE] + rest)))
    ensures StartsWith(buffer, word) && n == 5 + |name| + |rest|
    ensures FindNewline(buffer, 4) == Some(4 + |name|) && buffer[4..4 + |name|] == name
    ensures buffer[5 + |name|..n] == rest
  {
    hide FindNewline;
    var at := 4 + |name|;
    SliceParts(buffer, 0, n, word, [SPACE] + (name + ([NEWLINE] + rest)));
    SliceParts(buffer, 3, n, [SPACE], name + ([NEWLINE] + rest));
    SliceParts(buffer, 4, n, name, [NEWLINE] + rest);
    SliceParts(buffer, at, n, [NEWLINE], rest);
    assert buffer[at] == buffer[at..at + 1][0];
    forall i: nat | i < 3 ensures buffer[i] == word[i] {
      assert buffer[0..3][i] == word[i];
    }
    forall i: nat | 4 <= i < at ensures buffer[i] != NEWLINE && buffer[i] != 0 {
      assert buffer[4..at][i - 4] == name[i - 4];
    }
    NewlineAt(buffer, 4, at);
  }

  lemma SizeFound(buffer: Bytes, at: nat, n: nat, size: nat, payload: Bytes)
    requires at <= n <= |buffer| && buffer[at..n] == Encode(size, 8) + payload && size < Power256(8)
    ensures at + 8 <= n && Decode(buffer[at..at + 8]) == size && buffer[at + 8..n] == payload
  {
    hide Encode, Decode, Power256;
    DecodeEncode(size, 8);
    SliceParts(buffer, at, n, Encode(size, 8), payload);
  }

  lemma NameIsShort(name: Bytes)
    requires LegalName(name)
    ensures |name| <= MAX_FILENAME
  {
  }

  /** The first three events: verb, name and size. */
  method ReceivePutHeader(c: Client, name: Bytes, size: nat, payload: Bytes) returns (alive: bool)
    requires c.Valid() && c.state == ReadingVerb && LegalName(name) && size < Power256(8)
    requires |PutRequest(name, size)| + |payload| <= DATA_SIZE
    modifies c, c.dir
    ensures alive && c.Valid() && c.state == ReadingData && c.fileName == name && c.reqSize == size
    ensures c.received == payload && c.bufferSize != 0 && c.verb == Put && c.Stored([]) && c.sent == old(c.sent)
    ensures c.OthersKept(old(c.dir.files))
  {
    hide StartsWith, FindNewline, Encode, Decode, Power256, LegalName, KeptBut;
    var chunk := PutRequest(name, size) + payload;
    alive := c.HandleClientRequest(chunk, true, []);
    assert chunk == PUT_WORD + ([SPACE] + (name + ([NEWLINE] + (Encode(size, 8) + payload))));
    assert c.buffer[0..|chunk|] == c.buffer[..|chunk|];
    NameFound(c.buffer, PUT_WORD, name, Encode(size, 8) + payload, |chunk|);
    NameIsShort(name);
    alive := c.HandleClientRequest([], true, []);
    SizeFound(c.buffer, 5 + |name|, |chunk|, size, payload);
    alive := c.HandleClientRequest([], true, []);
  }

  lemma FirstPart(parts: seq<Bytes>)
    requires parts != []
    ensures Concat(parts) == parts[0] + Concat(parts[1..])
  {
  }

  lemma AcceptsStep(left: nat, parts: seq<Bytes>)
    requires parts != []
    ensures |parts[0]| >= left ==> (Accepts(left, parts) <==> |parts[0]| == left)
    ensures |parts[0]| < left ==>
      (Accepts(left, parts) <==> |parts| > 1 && parts[1] != [] && Accepts(left - |parts[0]|, parts[1..]))
  {
  }

  /** The payload, chunk by chunk, until the file is whole or given up. */
  method ReceivePayload(c: Client, size: nat, parts: seq<Bytes>) returns (ok: bool)
    requires c.Valid() && c.state == ReadingData && c.reqSize == size && parts != []
    requires c.received == parts[0] && c.bufferSize != 0 && c.errorType == -1 && c.verb == Put
    requires forall i: nat :: i < |parts| ==> |parts[i]| <= DATA_SIZE
    modifies c, c.dir
    ensures c.Valid() && c.state == WritingResponse && c.verb == Put
    ensures c.fileName == old(c.fileName) && c.sent == old(c.sent)
    ensures ok <==> Accepts(size, parts)
    ensures ok ==> c.errorType == -1 && size <= |Concat(parts)| && c.Stored(Concat(parts)[..size])
    ensures !ok ==> c.errorType == 1 && c.fileName !in c.dir.files
    ensures c.OthersKept(old(c.dir.files))
  {
    hide Accepts, Concat, FindNewline, StartsWith, Header, KeptBut, Client.Responded, Client.NameRead,
      Client.VerbKnown, Client.Sending, Client.PieceReached, Client.Receiving;
    var alive := c.HandleClientRequest([], true, []);
    var rest := parts;
    FirstPart(parts);
    AcceptsStep(size, parts);
    ghost var files := old(c.dir.files);
    assert parts[0..] == parts;
    while c.state == ReadingData
      invariant c.Valid() && (c.state == ReadingData || c.state == WritingResponse) && rest != []
      invariant c.reqSize == size && c.fileName == old(c.fileName) && c.verb == Put && c.sent == old(c.sent)
      invariant c.OthersKept(files)
      invariant c.received <= Concat(parts) && Concat(parts) == c.received + Concat(rest[1..])
      invariant forall i: nat :: i < |rest| ==> |rest[i]| <= DATA_SIZE
      invariant c.state == ReadingData ==> c.bufferSize == 0 && c.errorType == -1 && |c.received| < size
      invariant c.state == ReadingData ==>
        (Accepts(size, parts) <==> |rest| > 1 && rest[1] != [] && Accepts(size - |c.received|, rest[1..]))
      invariant c.state == WritingResponse ==> (c.errorType == -1 <==> Accepts(size, parts))
      invariant c.state == WritingResponse && c.errorType == -1 ==> |c.received| == size && c.Stored(c.received)
      invariant c.state == WritingResponse && c.errorType != -1 ==> c.errorType == 1 && c.fileName !in c.dir.files
      decreases |rest|, c.state == ReadingData
    {
      ghost var was := c.dir.files;
      if |rest| > 1 {
        rest := rest[1..];
        FirstPart(rest);
        AcceptsStep(size - |c.received|, rest);
        alive := c.HandleClientRequest(rest[0], true, []);
      } else {
        alive := c.HandleClientRequest([], true, []);
      }
      KeptThrough(c.fileName, files, was, c.dir.files);
    }
    ok := c.errorType == -1;
  }

  /** The whole of a PUT, for any split of its payload behind the first chunk, which holds the header:
      it ends well exactly when the announced size falls on the end of a chunk; then the file is the
      first bytes of the payload, as many as announced, and otherwise there is no file. */
  method ServePut(c: Client, name: Bytes, size: nat, parts: seq<Bytes>) returns (ok: bool)
    requires c.Valid() && c.state == ReadingVerb && LegalName(name) && size < Power256(8)
    requires parts != [] && |PutRequest(name, size)| + |parts[0]| <= DATA_SIZE
    requires forall i: nat :: i < |parts| ==> |parts[i]| <= DATA_SIZE
    modifies c, c.dir
    ensures c.Valid() && c.state == Complete && c.fileName == name
    ensures ok <==> Accepts(size, parts)
    ensures ok ==>
      c.Stored(Concat(parts)[..Min(size, |Concat(parts)|)]) && size <= |Concat(parts)| && c.sent == OK_LINE + [0]
    ensures !ok ==> name !in c.dir.files && c.sent == ERROR_LINE + c.badFileSize
    ensures c.OthersKept(old(c.dir.files))
  {
    hide StartsWith, FindNewline, Encode, Decode, Power256, Accepts, Concat, LegalName, KeptBut;
    ghost var before := c.dir.files;
    var alive := ReceivePutHeader(c, name, size, parts[0]);
    ghost var emptied := c.dir.files;
    ok := ReceivePayload(c, size, parts);
    KeptThrough(name, before, emptied, c.dir.files);
    alive := c.HandleClientRequest([], true, []);
  }

  /** One header and the bytes of the file, or an error when there is no such file. */
  function GetReply(c: Client, name: Bytes): Bytes
    reads c, c.dir
  {
    if name in c.dir.files then Header(c.dir.files[name]) + c.dir.files[name] else ERROR_LINE + c.noSuchFile
  }

  method SendFile(c: Client)
    requires c.Valid() && c.state == WritingResponse && c.verb == Get && c.sent == [] && c.fileOffset == 0
    requires c.errorType == if c.fileName in c.dir.files then -1 else 2
    modifies c, c.dir
    ensures c.Valid() && c.state == Complete && c.dir.files == old(c.dir.files) && c.fileName == old(c.fileName)
    ensures c.sent == GetReply(c, c.fileName)
  {
    hide Header;
    var alive := c.HandleClientRequest([], true, []);
    while c.state == WritingResponse
      invariant c.Valid() && (c.state == WritingResponse || c.state == Complete)
      invariant c.dir.files == old(c.dir.files) && c.fileName == old(c.fileName) && c.verb == Get
      invariant c.state == WritingResponse ==>
        c.errorType == -1 && c.fileName in c.dir.files && c.fileOffset < |c.dir.files[c.fileName]|
      invariant c.state == Complete ==>
        c.sent == GetReply(c, c.fileName)
      decreases if c.state == WritingResponse then |c.dir.files[c.fileName]| - c.fileOffset else 0
    {
      alive := c.HandleClientRequest([], true, []);
    }
  }

  /** The whole of a GET: one header and exactly the bytes of the file, over any number of steps, or an
      error when there is no such file.  No file changes. */
  method ServeGet(c: Client, name: Bytes)
    requires c.Valid() && c.state == ReadingVerb && LegalName(name)
    modifies c, c.dir
    ensures c.Valid() && c.state == Complete && c.dir.files == old(c.dir.files)
    ensures c.sent == GetReply(c, name)
  {
    hide StartsWith, FindNewline, Encode, LegalName, Header;
    var chunk := GetRequest(name);
    NameIsShort(name);
    var alive := c.HandleClientRequest(chunk, true, []);
    assert chunk == GET_WORD + ([SPACE] + (name + ([NEWLINE] + [])));
    assert c.buffer[0..|chunk|] == c.buffer[..|chunk|];
    NameFound(c.buffer, GET_WORD, name, [], |chunk|);
    alive := c.HandleClientRequest([], true, []);
    SendFile(c);
  }

  /** What one client puts another gets. */
  method PutThenGet(c: Client, d: Client, name: Bytes, size: nat, parts: seq<Bytes>) returns (ok: bool)
    requires c != d && c.dir == d.dir && c.Valid() && d.Valid() && c.state == d.state == ReadingVerb
    requires LegalName(name) && size < Power256(8)
    requires parts != [] && |PutRequest(name, size)| + |parts[0]| <= DATA_SIZE
    requires forall i: nat :: i < |parts| ==> |parts[i]| <= DATA_SIZE
    modifies c, d, c.dir
    ensures ok <==> Accepts(size, parts)
    ensures ok ==> size <= |Concat(parts)| && d.sent == Header(Concat(parts)[..size]) + Concat(parts)[..size]
    ensures ok ==>
      && |d.sent| == 11 + size && d.sent[..3] == OK_LINE && Decode(d.sent[3..11]) == size
      && d.sent[11..] == Concat(parts)[..size]
    ensures !ok ==> d.sent == ERROR_LINE + d.noSuchFile
  {
    hide Encode, LegalName, Header, Accepts, Concat, Power256;
    ok := ServePut(c, name, size, parts);
    ServeGet(d, name);
    if ok {
      HeaderTells(Concat(parts)[..size]);
    }
  }

  // ---- the other requests -----------------------------------------------------------------------

  function DeleteRequest(name: Bytes): Bytes {
    DELETE_WORD + [SPACE] + name + [NEWLINE]
  }

  /** A name behind DELETE is found in the buffer. */
  lemma DeletedNameFound(buffer: Bytes, name: Bytes, n: nat)
    requires LegalName(name) && n <= |buffer| && buffer[0..n] == DELETE_WORD + ([SPACE] + (name + [NEWLINE]))
    ensures StartsWith(buffer, DELETE_WORD)
    ensures FindNewline(buffer, 7) == Some(7 + |name|) && buffer[7..7 + |name|] == name
  {
    hide FindNewline;
    var at := 7 + |name|;
    SliceParts(buffer, 0, n, DELETE_WORD, [SPACE] + (name + [NEWLINE]));
    SliceParts(buffer, 6, n, [SPACE], name + [NEWLINE]);
    SliceParts(buffer, 7, n, name, [NEWLINE]);
    assert buffer[at] == buffer[at..n][0];
    StartsWithMeans(buffer, DELETE_WORD);
    forall i: nat | 7 <= i < at ensures buffer[i] != NEWLINE && buffer[i] != 0 {
      assert buffer[7..at][i - 7] == name[i - 7];
    }
    NewlineAt(buffer, 7, at);
  }

  /** The whole of a DELETE: that file goes and no other, or there was none. */
  method ServeDelete(c: Client, name: Bytes)
    requires c.Valid() && c.state == ReadingVerb && LegalName(name)
    modifies c, c.dir
    ensures c.Valid() && c.state == Complete && c.dir.files == old(c.dir.files) - {name}
    ensures c.sent == if name in old(c.dir.files) then OK_LINE + [0] else ERROR_LINE + c.noSuchFile
  {
    hide StartsWith, FindNewline, LegalName;
    var chunk := DeleteRequest(name);
    NameIsShort(name);
    var alive := c.HandleClientRequest(chunk, true, []);
    assert chunk == DELETE_WORD + ([SPACE] + (name + [NEWLINE]));
    assert c.buffer[0..|chunk|] == c.buffer[..|chunk|];
    DeletedNameFound(c.buffer, name, |chunk|);
    alive := c.HandleClientRequest([], true, []);
    assert c.dir.files == old(c.dir.files) - {name};
    alive := c.HandleClientRequest([], true, []);
  }

  /** The first words of the chunk, if it is long enough for all of them. */
  lemma ChunkWord(buffer: Bytes, chunk: Bytes, word: Bytes)
    requires |word| <= |chunk| <= |buffer| && buffer[..|chunk|] == chunk
    ensures StartsWith(buffer, word) <==> chunk[..|word|] == word
  {
    StartsWithMeans(buffer, word);
    assert buffer[..|word|] == buffer[..|chunk|][..|word|];
  }

  /** The whole of a LIST: one header and the listing. */
  method ServeList(c: Client, chunk: Bytes, listing: Bytes)
    requires c.Valid() && c.state == ReadingVerb && 4 <= |chunk| <= DATA_SIZE && chunk[..4] == LIST_WORD
    modifies c, c.dir
    ensures c.Valid() && c.state == Complete && c.dir.files == old(c.dir.files)
    ensures c.sent == Header(listing) + listing
  {
    hide StartsWith, Header;
    var alive := c.HandleClientRequest(chunk, true, listing);
    ChunkWord(c.buffer, chunk, LIST_WORD);
    alive := c.HandleClientRequest([], true, listing);
  }

  /** A request that begins with none of the four words is a bad request, and no file changes. */
  method ServeUnknown(c: Client, chunk: Bytes)
    requires c.Valid() && c.state == ReadingVerb && 6 <= |chunk| <= DATA_SIZE
    requires chunk[..3] != GET_WORD && chunk[..3] != PUT_WORD && chunk[..6] != DELETE_WORD && chunk[..4] != LIST_WORD
    modifies c, c.dir
    ensures c.Valid() && c.state == Complete && c.dir.files == old(c.dir.files)
    ensures c.sent == ERROR_LINE + c.badRequest
  {
    hide StartsWith;
    var alive := c.HandleClientRequest(chunk, true, []);
    ChunkWord(c.buffer, chunk, GET_WORD);
    ChunkWord(c.buffer, chunk, PUT_WORD);
    ChunkWord(c.buffer, chunk, DELETE_WORD);
    ChunkWord(c.buffer, chunk, LIST_WORD);
    alive := c.HandleClientRequest([], true, []);
  }

  lemma {:induction false} NoNewline(buffer: Bytes, from: nat, zero: nat)
    requires from <= zero < |buffer| && buffer[zero] == 0
    requires forall i: nat :: from <= i < zero ==> buffer[i] != NEWLINE
    ensures FindNewline(buffer, from).None?
    decreases zero - from
  {
    if buffer[from] != 0 {
      NoNewline(buffer, from + 1, zero);
    }
  }

  /** So is a name that ends in a zero byte instead of a newline. */
  method ServeUnended(c: Client, chunk: Bytes, zero: nat)
    requires c.Valid() && c.state == ReadingVerb && 6 <= |chunk| <= DATA_SIZE
    requires chunk[..3] == GET_WORD || chunk[..3] == PUT_WORD || chunk[..6] == DELETE_WORD
    requires var from := if chunk[..6] == DELETE_WORD then 7 else 4;
      from <= zero < |chunk| && chunk[zero] == 0 && forall i: nat :: from <= i < zero ==> chunk[i] != NEWLINE
    modifies c, c.dir
    ensures c.Valid() && c.state == Complete && c.dir.files == old(c.dir.files)
    ensures c.sent == ERROR_LINE + c.badRequest
  {
    hide StartsWith, FindNewline;
    var alive := c.HandleClientRequest(chunk, true, []);
    ChunkWord(c.buffer, chunk, GET_WORD);
    ChunkWord(c.buffer, chunk, PUT_WORD);
    ChunkWord(c.buffer, chunk, DELETE_WORD);
    VerbsDiffer(c.buffer);
    forall i: nat | i <= zero ensures c.buffer[i] == chunk[i] {
      assert c.buffer[..|chunk|][i] == chunk[i];
    }
    assert c.state == ReadingFilename;
    assert c.boffset == if chunk[..6] == DELETE_WORD then 7 else 4;
    NoNewline(c.buffer, c.boffset, zero);
    assert c.NameFits();
    alive := c.HandleClientRequest([], true, []);
    alive := c.HandleClientRequest([], true, []);
  }
}
