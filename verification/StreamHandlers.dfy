/**
 The handleStream functions of the relay, the mobile client and the node runner: at most five reads
 of at most five bytes, and a reply to an accepted word.
 */
module StreamHandlers {
  import opened Wrappers

  const MAX_RETRY: nat := 5
  const READ_SIZE: nat := 5
  const WRITER_SIZE: nat := 4096

  /** What one Read of the stream returns. */
  datatype ReadResult = Eof | Broken | Data(bytes: string)

  /** The bytes a Read puts in a buffer of five. */
  function Fit(r: ReadResult): ReadResult {
    if r.Data? && |r.bytes| > READ_SIZE then Data(r.bytes[..READ_SIZE]) else r
  }

  class Stream {
    const script: nat -> ReadResult
    const writable: bool
    var readCount: nat
    var replyCount: nat
    var sent: string
    var closed: bool

    constructor (script: nat -> ReadResult, writable: bool)
      ensures this.script == script && this.writable == writable
      ensures readCount == 0 && replyCount == 0 && sent == "" && !closed
    {
      this.script, this.writable := script, writable;
      readCount, replyCount, sent, closed := 0, 0, "", false;
    }

    method Read() returns (r: ReadResult)
      modifies this`readCount
      ensures readCount == old(readCount) + 1 && r == Fit(script(old(readCount)))
    {
      r := Fit(script(readCount));
      readCount := readCount + 1;
    }

    /** Every direct write is an attempt at a reply. */
    method Write(text: string) returns (ok: bool)
      modifies this`replyCount, this`sent
      ensures replyCount == old(replyCount) + 1 && ok == writable
      ensures sent == if ok then old(sent) + text else old(sent)
    {
      replyCount, ok := replyCount + 1, writable;
      if ok {
        sent := sent + text;
      }
    }

    method Close()
      modifies this`closed
      ensures closed
    {
      closed := true;
    }
  }

  /** bufio.Writer over a stream. */
  class BufferedWriter {
    const stream: Stream
    var buffer: string

    constructor (stream: Stream)
      ensures this.stream == stream && buffer == ""
    {
      this.stream, buffer := stream, "";
    }

    /** What fits stays in the buffer; otherwise the buffer is filled, flushed, and so on. */
    method WriteString(text: string)
      modifies this`buffer, stream`replyCount, stream`sent
      ensures |old(buffer)| + |text| <= 4096 ==>
                buffer == old(buffer) + text && stream.sent == old(stream.sent) && stream.replyCount == old(stream.replyCount)
    {
      var rest := text;
      while |buffer| + |rest| > WRITER_SIZE
        invariant |old(buffer)| + |text| <= WRITER_SIZE ==>
                    buffer == old(buffer) && rest == text &&
                    stream.sent == old(stream.sent) && stream.replyCount == old(stream.replyCount)
        decreases |rest| + |buffer|
      {
        var room := if |buffer| < WRITER_SIZE then WRITER_SIZE - |buffer| else 0;
        buffer, rest := buffer + rest[..room], rest[room..];
        var ok := stream.Write(buffer);
        if !ok {
          return;
        }
        buffer := "";
      }
      buffer := buffer + rest;
    }
  }

  /** The first read from the k-th on that is not an end of file, within the retry limit. */
  function FirstRead(script: nat -> ReadResult, k: nat): Option<nat>
    decreases MAX_RETRY - k
  {
    if k >= MAX_RETRY then None
    else if Fit(script(k)).Eof? then FirstRead(script, k + 1)
    else Some(k)
  }

  /** FirstRead is the least non-EOF position below the limit, if there is one. */
  lemma FirstReadIsLeast(script: nat -> ReadResult, k: nat)
    requires k <= MAX_RETRY
    ensures match FirstRead(script, k)
            case None => forall j :: k <= j < MAX_RETRY ==> script(j).Eof?
            case Some(f) => k <= f < MAX_RETRY && !script(f).Eof? && forall j :: k <= j < f ==> script(j).Eof?
    decreases MAX_RETRY - k
  {
    if k < MAX_RETRY && Fit(script(k)).Eof? {
      FirstReadIsLeast(script, k + 1);
    }
  }

  /** A handler that accepts these words attempts a reply. */
  predicate Replies(script: nat -> ReadResult, accepted: set<string>) {
    match FirstRead(script, 0)
    case None => false
    case Some(f) => Fit(script(f)).Data? && Fit(script(f)).bytes in accepted
  }

  const PING_ONLY: set<string> := {"PING\n"}
  const PING_OR_TEST: set<string> := {"PING\n", "TEST\n"}

  /** The f-th read, after nothing but ends of file, puts this word of five bytes into the buffer. */
  predicate Hears(script: nat -> ReadResult, f: nat, word: string) {
    f < 5 && (forall j :: 0 <= j < f ==> script(j).Eof?) && script(f).Data? && |script(f).bytes| >= 5 && script(f).bytes[..5] == word
  }

  /** n reads are made: five, or as many as it takes to read something other than an end of file. */
  predicate ReadsMade(script: nat -> ReadResult, n: nat) {
    1 <= n <= 5 && (forall j :: 0 <= j < n - 1 ==> script(j).Eof?) && (n < 5 ==> !script(n - 1).Eof?)
  }

  lemma ReadsOf(script: nat -> ReadResult)
    ensures ReadsMade(script, match FirstRead(script, 0) case None => 5 case Some(f) => f + 1)
    ensures Replies(script, PING_ONLY) <==> exists f :: Hears(script, f, "PING\n")
    ensures Replies(script, PING_OR_TEST) <==> exists f :: Hears(script, f, "PING\n") || Hears(script, f, "TEST\n")
  {
    FirstReadIsLeast(script, 0);
    if FirstRead(script, 0).Some? {
      var f := FirstRead(script, 0).value;
      assert |"PING\n"| == 5 && |"TEST\n"| == 5;
      assert Fit(script(f)) == Data("PING\n") <==> Hears(script, f, "PING\n");
      assert Fit(script(f)) == Data("TEST\n") <==> Hears(script, f, "TEST\n");
    }
  }

  /** handleStream of the relay and of the mobile client. */
  method HandleStream(stream: Stream)
    requires stream.readCount == 0 && stream.replyCount == 0 && stream.sent == ""
    modifies stream
    ensures stream.closed
    ensures stream.readCount == match FirstRead(stream.script, 0) case None => MAX_RETRY case Some(f) => f + 1
    ensures stream.replyCount == if Replies(stream.script, PING_ONLY) then 1 else 0
    ensures stream.sent == if Replies(stream.script, PING_ONLY) && stream.writable then "PONG\n" else ""
    ensures ReadsMade(stream.script, stream.readCount)
    ensures stream.replyCount == if exists f :: Hears(stream.script, f, "PING\n") then 1 else 0
  {
    ReadsOf(stream.script);
    var i := 0;
    while i < MAX_RETRY
      invariant i <= MAX_RETRY && stream.readCount == i && stream.replyCount == 0 && stream.sent == ""
      invariant FirstRead(stream.script, 0) == FirstRead(stream.script, i)
    {
      var r := stream.Read();
      if r.Eof? {
        i := i + 1;
        continue;
      }
      if r.Broken? {
        stream.Close();
        return;
      }
      if r.bytes == "PING\n" {
        var ok := stream.Write("PONG\n");
        if !ok {
          stream.Close();
          return;
        }
      }
      break;
    }
    stream.Close();
  }

  /** handleStream of the node runner: TEST is accepted too, and "noder" goes to a buffer nobody flushes. */
  method HandleStreamOfRunner(stream: Stream)
    requires stream.readCount == 0 && stream.replyCount == 0 && stream.sent == ""
    modifies stream
    ensures stream.closed
    ensures stream.readCount == match FirstRead(stream.script, 0) case None => MAX_RETRY case Some(f) => f + 1
    ensures stream.replyCount == if Replies(stream.script, PING_OR_TEST) then 1 else 0
    ensures stream.sent == if Replies(stream.script, PING_OR_TEST) && stream.writable then "PONG\n" else ""
    ensures ReadsMade(stream.script, stream.readCount)
    ensures stream.replyCount == if exists f :: Hears(stream.script, f, "PING\n") || Hears(stream.script, f, "TEST\n") then 1 else 0
  {
    ReadsOf(stream.script);
    var i := 0;
    while i < MAX_RETRY
      invariant i <= MAX_RETRY && stream.readCount == i && stream.replyCount == 0 && stream.sent == ""
      invariant FirstRead(stream.script, 0) == FirstRead(stream.script, i)
    {
      var r := stream.Read();
      if r.Eof? {
        i := i + 1;
        continue;
      }
      if r.Broken? {
        stream.Close();
        return;
      }
      if r.bytes == "PING\n" || r.bytes == "TEST\n" {
        var ok := stream.Write("PONG\n");
        if !ok {
          stream.Close();
          return;
        }
        var rw := new BufferedWriter(stream);
        rw.WriteString("noder");
      }
      break;
    }
    stream.Close();
  }

  /** Where the relay and the client reply so does the runner; the runner alone replies exactly when the
      first thing read is TEST. */
  lemma RunnerRepliesMore(script: nat -> ReadResult)
    ensures Replies(script, PING_ONLY) ==> Replies(script, PING_OR_TEST)
    ensures Replies(script, PING_OR_TEST) && !Replies(script, PING_ONLY) <==>
            exists f :: 0 <= f < MAX_RETRY && Fit(script(f)) == Data("TEST\n") && forall j :: 0 <= j < f ==> script(j).Eof?
  {
  }
}
