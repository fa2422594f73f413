/** The export stream acceptor: chunk frames and exactly one terminal frame, drained into a staged file that
    takes its name only when the whole stream checks out. */
module ExportStream {
  import opened Wrappers

  newtype Byte = b: int | 0 <= b < 256

  type Bytes = seq<Byte>

  const OK := 0

  /** One frame: the status it carries if any, its chunk, and what a terminal frame reports. */
  datatype Frame = Frame(error: Option<int>, chunk: Bytes, sentBytes: int, digest: string)

  /** What arrives: some frames, then the end of the stream or a receive error. */
  datatype Stream = Stream(frames: seq<Frame>, eof: bool)

  datatype Failure = ReceiveFailed | DaemonFailed | BytesAfterTerminal | WriteFailed | SecondTerminal | Truncated | NoDigest
                   | CreateFailed | CloseFailed | RenameFailed

  datatype Result<T> = Success(value: T) | Failed(failure: Failure)

  datatype Saved = Saved(digest: string, bytes: nat)

  // ----- the streams an export must be -----

  predicate Errs(f: Frame) {
    f.error.Some? && f.error.value != OK
  }

  predicate IsChunk(f: Frame) {
    !Errs(f) && f.chunk != []
  }

  predicate IsTerminal(f: Frame) {
    !Errs(f) && f.chunk == []
  }

  function Payload(frames: seq<Frame>): (b: Bytes) {
    if frames == [] then [] else Payload(frames[..|frames| - 1]) + frames[|frames| - 1].chunk
  }

  /** Chunks, then one terminal frame that reports the bytes sent and a digest, then the end. */
  predicate Complete(s: Stream) {
    && s.eof
    && s.frames != []
    && var n := |s.frames| - 1;
    && (forall i :: 0 <= i < n ==> IsChunk(s.frames[i]))
    && IsTerminal(s.frames[n])
    && s.frames[n].sentBytes == |Payload(s.frames)|
    && s.frames[n].digest != ""
  }

  /** What cutting a complete stream short, or losing part of it, leaves is not complete. */
  lemma CutIsNotComplete(s: Stream, k: nat, eof: bool)
    requires Complete(s) && k < |s.frames|
    ensures !Complete(Stream(s.frames[..k], eof))
  {
    if k > 0 {
      assert s.frames[..k][k - 1] == s.frames[k - 1];
    }
  }

  /** Losing one chunk frame in the middle shows in the byte count. */
  lemma LostChunkIsNotComplete(s: Stream, k: nat, eof: bool)
    requires Complete(s) && k < |s.frames| - 1
    ensures !Complete(Stream(s.frames[..k] + s.frames[k + 1..], eof))
  {
    var n := |s.frames| - 1;
    var rest := s.frames[..k] + s.frames[k + 1..];
    PayloadWithout(s.frames, k);
    assert rest[|rest| - 1] == s.frames[n] && IsChunk(s.frames[k]);
  }

  lemma {:induction false} PayloadWithout(frames: seq<Frame>, k: nat)
    requires k < |frames|
    ensures |Payload(frames[..k] + frames[k + 1..])| + |frames[k].chunk| == |Payload(frames)|
  {
    var n := |frames| - 1;
    if k == n {
      assert frames[..k] + frames[k + 1..] == frames[..n];
    } else {
      var rest := frames[..k] + frames[k + 1..];
      PayloadWithout(frames[..n], k);
      assert rest[..|rest| - 1] == frames[..n][..k] + frames[..n][k + 1..];
    }
  }

  // ----- which problem a bad stream has -----

  predicate TerminalBefore(s: Stream, i: nat)
    requires i <= |s.frames|
  {
    exists k :: 0 <= k < i && IsTerminal(s.frames[k])
  }

  /** What is wrong with the i-th frame, if anything, given the writes that fail. */
  function FrameProblem(s: Stream, cut: nat -> Option<nat>, i: nat): (p: Option<Failure>)
    requires i < |s.frames|
  {
    if Errs(s.frames[i]) then Some(DaemonFailed)
    else if TerminalBefore(s, i) then Some(if IsChunk(s.frames[i]) then BytesAfterTerminal else SecondTerminal)
    else if IsChunk(s.frames[i]) && cut(i).Some? then Some(WriteFailed)
    else None
  }

  /** What is wrong with a stream whose frames are each in order. */
  function EndProblem(s: Stream): (p: Option<Failure>) {
    if !s.eof then Some(ReceiveFailed)
    else if s.frames == [] || !IsTerminal(s.frames[|s.frames| - 1]) || s.frames[|s.frames| - 1].sentBytes != |Payload(s.frames)| then Some(Truncated)
    else if s.frames[|s.frames| - 1].digest == "" then Some(NoDigest)
    else None
  }

  predicate InOrder(s: Stream, cut: nat -> Option<nat>, n: nat)
    requires n <= |s.frames|
  {
    forall i :: 0 <= i < n ==> FrameProblem(s, cut, i) == None
  }

  /** The failure is that of the first frame with a problem, or of the stream's end. */
  ghost predicate FirstProblem(s: Stream, cut: nat -> Option<nat>, p: Failure) {
    || (exists i :: 0 <= i < |s.frames| && InOrder(s, cut, i) && FrameProblem(s, cut, i) == Some(p))
    || (InOrder(s, cut, |s.frames|) && EndProblem(s) == Some(p))
  }

  /** A stream with a problem is not complete or loses a write, and it has only one first problem. */
  lemma OneFirstProblem(s: Stream, cut: nat -> Option<nat>, p: Failure, q: Failure)
    requires FirstProblem(s, cut, p)
    ensures !(Complete(s) && forall i :: 0 <= i < |s.frames| - 1 ==> cut(i).None?)
    ensures FirstProblem(s, cut, q) ==> p == q
  {
  }

  // ----- draining the stream -----

  class Archive {
    /** How many bytes of the n-th write reach the staged file before it fails; None when it does not. */
    const cut: nat -> Option<nat>
    /** The staged file, and the file at the archive's path. */
    var staged: Option<Bytes>
    var target: Option<Bytes>

    constructor (cut: nat -> Option<nat>, target: Option<Bytes>)
      ensures this.cut == cut && staged == None && this.target == target
    {
      this.cut, this.staged, this.target := cut, None, target;
    }

    /** streamSaveImage: it succeeds exactly on a complete stream whose writes all succeed; the staged file
        then holds exactly the chunks. */
    method Drain(s: Stream) returns (r: Result<Saved>)
      requires staged == Some([])
      modifies this`staged
      ensures staged.Some?
      ensures r.Success? <==> Complete(s) && forall i :: 0 <= i < |s.frames| - 1 ==> cut(i).None?
      ensures r.Success? ==> staged == Some(Payload(s.frames)) && r.value == Saved(s.frames[|s.frames| - 1].digest, |Payload(s.frames)|)
      ensures r.Failed? ==> FirstProblem(s, cut, r.failure)
    {
      var written, terminal, i := 0, None, 0;
      while i < |s.frames|
        invariant 0 <= i <= |s.frames|
        invariant staged == Some(Payload(s.frames[..i])) && written == |Payload(s.frames[..i])|
        invariant InOrder(s, cut, i) && (terminal.Some? <==> TerminalBefore(s, i))
        invariant terminal.None? ==> forall k :: 0 <= k < i ==> IsChunk(s.frames[k]) && cut(k).None?
        invariant terminal.Some? ==> i > 0 && terminal.value == s.frames[i - 1] && IsTerminal(terminal.value)
        invariant terminal.Some? ==> forall k :: 0 <= k < i - 1 ==> IsChunk(s.frames[k]) && cut(k).None?
      {
        var frame := s.frames[i];
        assert s.frames[..i + 1][..i] == s.frames[..i];
        if frame.error.Some? && frame.error.value != OK {
          return Failed(DaemonFailed);
        }
        if |frame.chunk| > 0 {
          if terminal.Some? {
            return Failed(BytesAfterTerminal);
          }
          if cut(i).Some? {
            var n := if cut(i).value < |frame.chunk| then cut(i).value else |frame.chunk|;
            staged := Some(staged.value + frame.chunk[..n]);
            return Failed(WriteFailed);
          }
          staged := Some(staged.value + frame.chunk);
          written := written + |frame.chunk|;
        } else {
          if terminal.Some? {
            return Failed(SecondTerminal);
          }
          terminal := Some(frame);
          assert Payload(s.frames[..i]) + [] == Payload(s.frames[..i]);
        }
        i := i + 1;
      }
      assert s.frames[..|s.frames|] == s.frames;
      if !s.eof {
        return Failed(ReceiveFailed);
      }
      if terminal.None? || terminal.value.sentBytes != written {
        return Failed(Truncated);
      }
      if terminal.value.digest == "" {
        return Failed(NoDigest);
      }
      r := Success(Saved(terminal.value.digest, written));
    }

    /** saveImageArchive: the target becomes the whole archive, or is left as it was. The staged file of a
        failed export is removed, if the removal succeeds. */
    method Save(s: Stream, created: bool, closed: bool, renamed: bool, removed: bool) returns (r: Result<Saved>)
      modifies this
      ensures r.Success? <==> created && closed && renamed && Complete(s) && forall i :: 0 <= i < |s.frames| - 1 ==> cut(i).None?
      ensures r.Success? ==> target == Some(Payload(s.frames)) && r.value.bytes == |Payload(s.frames)|
      ensures r.Success? ==> r.value.digest == s.frames[|s.frames| - 1].digest
      ensures r.Failed? ==> target == old(target)
      ensures r.Failed? ==>
        match r.failure
        case CreateFailed => !created
        case CloseFailed => created && Complete(s) && !closed
        case RenameFailed => created && Complete(s) && closed && !renamed
        case _ => created && FirstProblem(s, cut, r.failure)
      ensures !created ==> staged == old(staged)
      ensures created && (r.Success? || removed) ==> staged == None
    {
      if !created {
        return Failed(CreateFailed);
      }
      staged := Some([]);
      r := Drain(s);
      if r.Success? && !closed {
        r := Failed(CloseFailed);
      }
      if r.Success? && !renamed {
        r := Failed(RenameFailed);
      }
      if r.Success? {
        target, staged := staged, None;
      } else if removed {
        staged := None;
      }
    }
  }
}
