/** The file-transfer server's per-client state machine: each event receives at most one chunk and
    takes one step. */
module FileServer {
  import opened Basics
  import opened LittleEndian

  const DATA_SIZE: nat := 1024
  const MAX_FILENAME: nat := 255

  type Bytes = seq<Byte>

  const NEWLINE: Byte := 10

  datatype Verb = Get | Put | Delete | List | Unknown

  datatype State = ReadingVerb | ReadingFilename | ReadingSize | ReadingData | WritingResponse | Complete

  const OK_LINE: Bytes := [79, 75, 10]

  // ---- the header -------------------------------------------------------------------------------

  predicate StartsWith(buffer: Bytes, word: Bytes) {
    |word| <= |buffer| && forall i: nat :: i < |word| ==> buffer[i] == word[i]
  }

  lemma StartsWithMeans(buffer: Bytes, word: Bytes)
    ensures StartsWith(buffer, word) <==> |word| <= |buffer| && buffer[..|word|] == word
  {
    if |word| <= |buffer| && buffer[..|word|] == word {
      assert forall i: nat :: i < |word| ==> buffer[i] == buffer[..|word|][i];
    }
  }

  const GET_WORD: Bytes := [71, 69, 84]
  const PUT_WORD: Bytes := [80, 85, 84]
  const DELETE_WORD: Bytes := [68, 69, 76, 69, 84, 69]
  const LIST_WORD: Bytes := [76, 73, 83, 84]

  /** The first letters tell the verbs apart. */
  lemma VerbsDiffer(buffer: Bytes)
    ensures StartsWith(buffer, GET_WORD) ==> buffer[0] == 71
    ensures StartsWith(buffer, PUT_WORD) ==> buffer[0] == 80
    ensures StartsWith(buffer, DELETE_WORD) ==> buffer[0] == 68
    ensures StartsWith(buffer, LIST_WORD) ==> buffer[0] == 76
  {
    assert GET_WORD[0] == 71 && PUT_WORD[0] == 80 && DELETE_WORD[0] == 68 && LIST_WORD[0] == 76;
  }

  /** The buffer starts with none of the four words. */
  predicate NoVerb(buffer: Bytes) {
    && !StartsWith(buffer, GET_WORD) && !StartsWith(buffer, PUT_WORD)
    && !StartsWith(buffer, DELETE_WORD) && !StartsWith(buffer, LIST_WORD)
  }

  predicate ZeroBetween(buffer: Bytes, from: nat, to: nat)
    requires to <= |buffer|
  {
    exists j: nat :: from <= j < to && buffer[j] == 0
  }

  /** The first newline at or after `from`, unless a zero byte comes before it. */
  function FindNewline(buffer: Bytes, from: nat): (r: Option<nat>)
    ensures r.Some? ==> from <= r.value < |buffer| && buffer[r.value] == NEWLINE
    ensures r.Some? ==> forall i: nat :: from <= i < r.value ==> buffer[i] != NEWLINE && buffer[i] != 0
    ensures r.None? ==> forall i: nat :: from <= i < |buffer| && buffer[i] == NEWLINE ==> ZeroBetween(buffer, from, i)
    decreases |buffer| - from
  {
    if from >= |buffer| || buffer[from] == 0 then None
    else if buffer[from] == NEWLINE then Some(from)
    else FindNewline(buffer, from + 1)
  }

  lemma {:induction false} NewlineAt(buffer: Bytes, from: nat, at: nat)
    requires from <= at < |buffer| && buffer[at] == NEWLINE
    requires forall i: nat :: from <= i < at ==> buffer[i] != NEWLINE && buffer[i] != 0
    ensures FindNewline(buffer, from) == Some(at)
    decreases at - from
  {
    if from < at {
      NewlineAt(buffer, from + 1, at);
    }
  }

  /** What recv leaves in the buffer: the chunk, and behind it whatever was there. */
  function Filled(buffer: Bytes, chunk: Bytes): (r: Bytes)
    requires |chunk| <= |buffer|
    ensures |r| == |buffer| && r[..|chunk|] == chunk
  {
    chunk + buffer[|chunk|..]
  }

  const ERROR_LINE: Bytes := [69, 82, 82, 79, 82, 10]

  /** What comes before the bytes of a file or a listing. */
  function Header(content: Bytes): Bytes {
    OK_LINE + Encode(|content|, 8)
  }

  /** The header is the word OK and the size in eight bytes, from which it reads back. */
  lemma HeaderTells(content: Bytes)
    ensures |Header(content)| == 11 && Header(content)[..3] == OK_LINE
    ensures |content| < Power256(8) ==> Decode(Header(content)[3..]) == |content|
  {
    hide Encode, Decode, Power256;
    assert Header(content)[3..] == Encode(|content|, 8);
    if |content| < Power256(8) {
      DecodeEncode(|content|, 8);
    }
  }

  lemma HeaderSent(content: Bytes)
    ensures [] + OK_LINE + Encode(|content|, 8) == Header(content) + content[..0]
  {
    hide Encode;
  }

  lemma PieceSent(content: Bytes, at: nat, n: nat)
    requires at + n <= |content|
    ensures Header(content) + content[..at] + content[at..at + n] == Header(content) + content[..at + n]
    ensures content[..|content|] == content
  {
    hide Header;
    assert content[..at] + content[at..at + n] == content[..at + n];
  }

  /** Files other than `name` are the same before and after. */
  ghost predicate KeptBut(name: Bytes, before: map<Bytes, Bytes>, after: map<Bytes, Bytes>) {
    forall f: Bytes :: f != name ==> (f in after <==> f in before) && (f in before ==> after[f] == before[f])
  }

  lemma KeptWithout(name: Bytes, a: map<Bytes, Bytes>, b: map<Bytes, Bytes>)
    ensures KeptBut(name, a, a) && (KeptBut(name, a, b) ==> KeptBut(name, a, b - {name}))
  {
  }

  lemma KeptThrough(name: Bytes, a: map<Bytes, Bytes>, b: map<Bytes, Bytes>, c: map<Bytes, Bytes>)
    requires KeptBut(name, a, b) && KeptBut(name, b, c)
    ensures KeptBut(name, a, c)
  {
  }

  /** The files in the server's directory. */
  class Directory {
    var files: map<Bytes, Bytes>

    constructor ()
      ensures files == map[]
    {
      files := map[];
    }
  }

  class Client {
    const dir: Directory
    const badRequest: Bytes
    const badFileSize: Bytes
    const noSuchFile: Bytes
    var state: State
    var verb: Verb
    var fileName: Bytes
    var fileOffset: nat
    var buffer: Bytes
    var bufferSize: nat
    var boffset: nat
    var reqSize: nat
    var errorType: int
    /** Everything sent to the client. */
    var sent: Bytes
    /** The payload received so far. */
    ghost var received: Bytes

    predicate Named()
      reads this
    {
      verb == Get || verb == Put || verb == Delete
    }

    /** What has arrived of a PUT is in the file, and behind that in the buffer. */
    ghost predicate Receiving()
      reads this, dir
    {
      && verb == Put && |buffer| == DATA_SIZE && boffset <= bufferSize <= DATA_SIZE
      && fileName in dir.files && |dir.files[fileName]| == fileOffset <= reqSize
      && received == dir.files[fileName] + buffer[boffset..bufferSize]
    }

    /** What has been sent of a GET is the header and a prefix of the file, or nothing yet. */
    ghost predicate Sending()
      reads this, dir
    {
      && fileName in dir.files
      && (fileOffset == 0 ==> sent == [])
      && (fileOffset != 0 ==> reqSize == |dir.files[fileName]| && fileOffset < reqSize)
      && (fileOffset != 0 ==> sent == Header(dir.files[fileName]) + dir.files[fileName][..fileOffset])
    }

    /** The file of this client holds `content`. */
    predicate Stored(content: Bytes)
      reads this, dir
    {
      fileName in dir.files && dir.files[fileName] == content
    }

    ghost predicate Valid()
      reads this, dir
    {
      && |buffer| == DATA_SIZE && bufferSize <= DATA_SIZE && -1 <= errorType <= 2
      && (state == ReadingVerb ==> sent == [] && errorType == -1)
      && (state == ReadingFilename ==> Named() && boffset <= 7)
      && (state == ReadingSize ==> verb == Put && Stored([]) && fileOffset == 0 && boffset + 8 <= DATA_SIZE)
      && (state == ReadingFilename || state == ReadingSize || state == ReadingData ==> errorType == -1 && sent == [])
      && (state == ReadingData ==> Receiving())
      && (state == WritingResponse ==> errorType != -1 || verb != Unknown)
      && (state == WritingResponse && errorType == -1 && verb == Get ==> Sending())
    }

    /** Names are as long as the protocol allows. */
    predicate NameFits()
      reads this
    {
      var end := FindNewline(buffer, boffset);
      end.Some? ==> end.value - boffset <= MAX_FILENAME
    }

    // ---- what each step promises ----------------------------------------------------------------

    /** The first letters gave the verb. */
    ghost predicate VerbKnown()
      reads this
    {
      && (StartsWith(buffer, PUT_WORD) ==> state == ReadingFilename && verb == Put && boffset == 4)
      && (StartsWith(buffer, GET_WORD) ==> state == ReadingFilename && verb == Get && boffset == 4)
      && (StartsWith(buffer, DELETE_WORD) ==> state == ReadingFilename && verb == Delete && boffset == 7)
      && (StartsWith(buffer, LIST_WORD) ==> state == WritingResponse && verb == List && errorType == -1)
      && (NoVerb(buffer) ==> state == WritingResponse && errorType == 0)
    }

    /** No file but this client's was touched. */
    ghost predicate OthersKept(before: map<Bytes, Bytes>)
      reads this, dir
    {
      KeptBut(fileName, before, dir.files)
    }

    /** The file is named, and emptied, looked up or removed as the verb says. */
    ghost predicate NameRead(was: Bytes, from: nat, before: map<Bytes, Bytes>, opens: bool, alive: bool)
      requires from <= |was|
      reads this, dir
    {
      match FindNewline(was, from)
      case None => alive && state == WritingResponse && errorType == 0 && dir.files == before
      case Some(end) =>
        && fileName == was[from..end] && boffset == end + 1 && fileOffset == 0 && OthersKept(before)
        && (alive <==> verb != Put || opens)
        && (verb == Put && opens ==> state == ReadingSize && Stored([]))
        && (verb == Put && !opens ==> dir.files == before)
        && (verb != Put ==> state == WritingResponse && errorType == if fileName in before then -1 else 2)
        && (verb == Get ==> dir.files == before)
        && (verb == Delete ==> fileName !in dir.files)
    }

    /** More is wanted, or the file is whole, or it is gone; `empty` is that nothing came. */
    ghost predicate DataRead(empty: bool)
      reads this, dir
    {
      && (state == ReadingData <==> !empty && |received| < reqSize)
      && (state == ReadingData ==> bufferSize == 0 && boffset == 0)
      && (state != ReadingData ==> state == WritingResponse)
      && (errorType == -1 <==> !empty && |received| <= reqSize)
      && (errorType == -1 ==> Stored(received))
      && (errorType != -1 ==> errorType == 1 && fileName !in dir.files)
    }

    function Message(): Bytes
      reads this
    {
      if errorType == 0 then badRequest else if errorType == 1 then badFileSize else noSuchFile
    }

    /** The answer is complete exactly when the whole file has gone out, once, behind one header. */
    ghost predicate PieceReached(offset: nat, content: Bytes)
      reads this
    {
      && (state == Complete <==> offset + DATA_SIZE >= |content|)
      && (state == Complete ==> sent == Header(content) + content)
      && (state != Complete ==> state == WritingResponse && fileOffset == offset + DATA_SIZE)
    }

    /** An error line, a confirmation, a listing, or a piece of the file was sent. */
    ghost predicate Responded(before: Bytes, offset: nat, listing: Bytes)
      reads this, dir
    {
      && (errorType != -1 ==> state == Complete && sent == before + ERROR_LINE + Message())
      && (errorType == -1 && (verb == Put || verb == Delete) ==> state == Complete && sent == before + OK_LINE + [0])
      && (errorType == -1 && verb == List ==> state == Complete && sent == before + Header(listing) + listing)
      && (errorType == -1 && verb == Get ==> fileName in dir.files && PieceReached(offset, dir.files[fileName]))
    }

    // ---- the steps ------------------------------------------------------------------------------

    constructor (dir: Directory, badRequest: Bytes, badFileSize: Bytes, noSuchFile: Bytes, stale: Bytes)
      requires |stale| == DATA_SIZE
      ensures Valid() && state == ReadingVerb && bufferSize == boffset == 0 && this.dir == dir
      ensures this.badRequest == badRequest && this.badFileSize == badFileSize && this.noSuchFile == noSuchFile
    {
      this.dir := dir;
      this.badRequest, this.badFileSize, this.noSuchFile := badRequest, badFileSize, noSuchFile;
      state, verb, fileName, fileOffset, errorType := ReadingVerb, Unknown, [], 0, -1;
      buffer, bufferSize, boffset, reqSize, sent, received := stale, 0, 0, 0, [], [];
    }

    method ReadVerb()
      requires Valid() && state == ReadingVerb
      modifies this
      ensures Valid() && VerbKnown()
      ensures unchanged(`buffer, `bufferSize, `fileName, `fileOffset, `sent, `received, `reqSize)
    {
      VerbsDiffer(buffer);
      hide StartsWith;
      if StartsWith(buffer, GET_WORD) {
        verb, state, boffset := Get, ReadingFilename, 4;
      } else if StartsWith(buffer, PUT_WORD) {
        verb, state, boffset := Put, ReadingFilename, 4;
      } else if StartsWith(buffer, DELETE_WORD) {
        verb, state, boffset := Delete, ReadingFilename, 7;
      } else if StartsWith(buffer, LIST_WORD) {
        verb, state := List, WritingResponse;
      } else {
        errorType, state := 0, WritingResponse;
      }
    }

    /** The name runs to the newline.  `opens` is whether the file can be opened for writing. */
    method ReadFilename(opens: bool) returns (alive: bool)
      requires Valid() && state == ReadingFilename && NameFits()
      modifies this, dir
      ensures alive ==> Valid()
      ensures unchanged(`buffer, `bufferSize, `sent, `received, `verb)
      ensures NameRead(old(buffer), old(boffset), old(dir.files), opens, alive)
    {
      alive := true;
      var end := FindNewline(buffer, boffset);
      if end.None? {
        errorType, state := 0, WritingResponse;
        return;
      }
      fileName := buffer[boffset..end.value];
      fileOffset := 0;
      boffset := end.value + 1;
      if verb == Put {
        if !opens { return false; }
        dir.files := dir.files[fileName := []];
        state := ReadingSize;
      } else if verb == Get {
        if fileName !in dir.files { errorType := 2; }
        state := WritingResponse;
      } else {
        if fileName !in dir.files {
          errorType := 2;
        } else {
          dir.files := dir.files - {fileName};
        }
        state := WritingResponse;
      }
    }

    /** The eight bytes of the size; what is behind them is payload. */
    method ReadSize()
      requires Valid() && state == ReadingSize && boffset + 8 <= bufferSize
      modifies this
      ensures Valid() && state == ReadingData && unchanged(`buffer, `bufferSize, `fileName, `fileOffset, `verb, `sent)
      ensures boffset == old(boffset) + 8 && reqSize == Decode(buffer[old(boffset)..boffset])
      ensures received == buffer[boffset..bufferSize]
    {
      reqSize := Decode(buffer[boffset..boffset + 8]);
      boffset := boffset + 8;
      state := ReadingData;
      received := buffer[boffset..bufferSize];
    }

    /** What recv leaves in the buffer. */
    method Receive(chunk: Bytes)
      requires |buffer| == DATA_SIZE && |chunk| <= DATA_SIZE
      modifies this`buffer, this`bufferSize
      ensures |buffer| == DATA_SIZE && bufferSize == |chunk| && buffer[..bufferSize] == chunk
    {
      buffer := Filled(buffer, chunk);
      bufferSize := |chunk|;
    }

    /** Append `n` bytes of the buffer to the file. */
    method StoreBytes(n: nat)
      requires Receiving() && n <= bufferSize - boffset && fileOffset + n <= reqSize
      modifies this`fileOffset, dir
      ensures fileOffset == old(fileOffset) + n && fileName in dir.files && |dir.files[fileName]| == fileOffset
      ensures received == dir.files[fileName] + buffer[boffset + n..bufferSize]
      ensures OthersKept(old(dir.files))
    {
      ghost var was := dir.files[fileName];
      dir.files := dir.files[fileName := dir.files[fileName] + buffer[boffset..boffset + n]];
      fileOffset := fileOffset + n;
      assert buffer[boffset..bufferSize] == buffer[boffset..boffset + n] + buffer[boffset + n..bufferSize];
      assert was + (buffer[boffset..boffset + n] + buffer[boffset + n..bufferSize])
          == was + buffer[boffset..boffset + n] + buffer[boffset + n..bufferSize];
    }

    /** The file gets what is in the buffer unless that would be too much; then, or when nothing came,
        the file goes. */
    method ReadData()
      requires Valid() && state == ReadingData
      modifies this, dir
      ensures Valid() && unchanged(`reqSize, `fileName, `verb, `sent, `received)
      ensures OthersKept(old(dir.files)) && DataRead(old(bufferSize) == 0)
    {
      hide KeptBut;
      KeptWithout(fileName, dir.files, dir.files);
      if bufferSize == 0 {
        state, errorType := WritingResponse, 1;
        dir.files := dir.files - {fileName};
        return;
      }
      var left := reqSize - fileOffset;
      var inBuffer := bufferSize - boffset;
      var n := Min(inBuffer, left);
      StoreBytes(n);
      left := left - n;
      boffset := 0;
      bufferSize := 0;
      inBuffer := inBuffer - n;
      if inBuffer > 0 && left == 0 {
        errorType, state := 1, WritingResponse;
        KeptWithout(fileName, old(dir.files), dir.files);
        dir.files := dir.files - {fileName};
      } else if fileOffset > reqSize {
        // Here the source reports a size error; the offset never gets here.
        assert false;
      } else if left == 0 {
        state := WritingResponse;
      }
    }

    /** The header once, then the next piece of the file. */
    method SendGetResponse()
      requires Valid() && state == WritingResponse && errorType == -1 && verb == Get
      modifies this
      ensures Valid() && unchanged(`fileName, `verb, `errorType)
      ensures fileName in dir.files && PieceReached(old(fileOffset), dir.files[fileName])
    {
      hide Header, Encode;
      var content := dir.files[fileName];
      if fileOffset == 0 {
        reqSize := |content|;
        sent := sent + OK_LINE;
        sent := sent + Encode(|content|, 8);
        HeaderSent(content);
      }
      var left := reqSize - fileOffset;
      var n := if left > DATA_SIZE then DATA_SIZE else left;
      PieceSent(content, fileOffset, n);
      sent := sent + content[fileOffset..fileOffset + n];
      fileOffset := fileOffset + n;
      if fileOffset >= reqSize {
        state := Complete;
      }
    }

    method WriteResponse(listing: Bytes)
      requires Valid() && state == WritingResponse
      modifies this
      ensures Valid() && unchanged(`fileName, `verb, `errorType) && Responded(old(sent), old(fileOffset), listing)
    {
      if errorType != -1 {
        sent := sent + ERROR_LINE + Message();
        state := Complete;
        return;
      }
      if verb == Get {
        SendGetResponse();
        return;
      }
      if verb == List {
        sent := sent + Header(listing) + listing;
      } else {
        sent := sent + OK_LINE + [0];
      }
      state := Complete;
    }

    /** One event.  A chunk is received when a verb or more data is due; then one step is taken. */
    method HandleClientRequest(chunk: Bytes, opens: bool, listing: Bytes) returns (alive: bool)
      requires Valid() && |chunk| <= DATA_SIZE
      requires state == ReadingFilename ==> NameFits()
      requires state == ReadingSize ==> boffset + 8 <= bufferSize
      modifies this, dir
      ensures alive ==> Valid()
      ensures old(state) == Complete ==> alive && unchanged(this, dir)
      ensures old(state) == ReadingVerb ==> alive && VerbKnown() && unchanged(dir, `sent)
      ensures old(state) == ReadingVerb ==> |buffer| == DATA_SIZE && bufferSize == |chunk| && buffer[..|chunk|] == chunk
      ensures old(state) == ReadingFilename ==>
        old(boffset) <= DATA_SIZE && NameRead(old(buffer), old(boffset), old(dir.files), opens, alive)
      ensures old(state) == ReadingFilename ==> unchanged(`buffer, `bufferSize, `sent, `verb)
      ensures old(state) == ReadingSize ==>
        alive && state == ReadingData && unchanged(`buffer, `bufferSize, `fileName, `sent, `verb, dir)
      ensures old(state) == ReadingSize ==> boffset == old(boffset) + 8 <= bufferSize <= |buffer|
      ensures old(state) == ReadingSize ==>
        reqSize == Decode(buffer[old(boffset)..boffset]) && received == buffer[boffset..bufferSize]
      ensures old(state) == ReadingData ==> alive && unchanged(`reqSize, `fileName, `verb, `sent)
      ensures old(state) == ReadingData ==> received == old(received) + if old(bufferSize) == 0 then chunk else []
      ensures old(state) == ReadingData ==> DataRead(old(bufferSize) == 0 && chunk == []) && OthersKept(old(dir.files))
      ensures old(state) == WritingResponse ==> alive && unchanged(`fileName, `verb, `errorType, dir)
      ensures old(state) == WritingResponse ==> Responded(old(sent), old(fileOffset), listing)
    {
      alive := true;
      if state == Complete {
        return;
      }
      if (state == ReadingData && bufferSize == 0) || state == ReadingVerb {
        Receive(chunk);
        if state == ReadingData {
          received := received + chunk;
        }
      }
      hide StartsWith, FindNewline, Header, NameFits;
      match state
      case ReadingVerb => ReadVerb();
      case ReadingFilename => alive := ReadFilename(opens);
      case ReadingSize => ReadSize();
      case ReadingData => ReadData();
      case WritingResponse => WriteResponse(listing);
    }
  }
}
