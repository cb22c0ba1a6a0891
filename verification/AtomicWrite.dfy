/**
 `_atomic_write_json` of launchers/lora_target_census.py as a step machine: at every point of
 every run, a crash leaves at the destination what was there before or the complete new text.
 Replacing within one directory is one step, as `rename()` of POSIX.1-2017 requires.
 */
module AtomicWrite {
  datatype Option<T> = None | Some(value: T)

  /** A file as the system holds it; only the first `durable` characters must survive a crash. */
  datatype File = File(text: string, durable: nat)

  datatype Phase =
    | Start
    | Writing(next: nat) // the next chunk of the serialised payload
    | Flushed
    | Synced
    | Replaced
    | Raised             // an exception is on its way to the cleanup
    | Failed             // the cleanup is over and the exception re-raised

  /** `buffer` is what the file object has not handed over yet. */
  datatype State = State(dest: Option<File>, temp: Option<File>, buffer: string, phase: Phase)

  /** What can be found at a name after a crash. */
  predicate AfterCrash(f: Option<File>, found: Option<string>)
  {
    match f
    case None => found == None
    case Some(file) => found.Some? && found.value <= file.text && |found.value| >= file.durable
  }

  function Concat(chunks: seq<string>): string
  {
    if chunks == [] then "" else Concat(chunks[..|chunks| - 1]) + chunks[|chunks| - 1]
  }

  predicate Initial(s: State, prior: Option<File>)
  {
    s == State(prior, None, "", Start) && (prior.Some? ==> prior.value.durable == |prior.value.text|)
  }

  predicate MakeTemp(s: State, t: State)
  {
    s.phase == Start && t == s.(temp := Some(File("", 0)), phase := Writing(0))
  }

  /** A chunk enters the buffer, and any part of the buffer may reach the file. */
  predicate WriteChunk(chunks: seq<string>, s: State, t: State)
  {
    && s.phase.Writing? && s.phase.next < |chunks| && s.temp.Some?
    && t.temp.Some? && t.phase == Writing(s.phase.next + 1)
    && t.dest == s.dest
    && s.temp.value.text <= t.temp.value.text && s.temp.value.durable == t.temp.value.durable
    && t.temp.value.text + t.buffer == s.temp.value.text + s.buffer + chunks[s.phase.next]
  }

  predicate Flush(chunks: seq<string>, s: State, t: State)
  {
    && s.phase == Writing(|chunks|) && s.temp.Some?
    && t == State(s.dest, Some(File(s.temp.value.text + s.buffer, s.temp.value.durable)), "", Flushed)
  }

  predicate Sync(s: State, t: State)
  {
    && s.phase == Flushed && s.temp.Some?
    && t == s.(temp := Some(File(s.temp.value.text, |s.temp.value.text|)), phase := Synced)
  }

  predicate Replace(s: State, t: State)
  {
    s.phase == Synced && t == s.(dest := s.temp, temp := None, phase := Replaced)
  }

  /** Any step may raise; leaving the `with` block hands over what it can of the buffer. */
  predicate Raise(s: State, t: State)
  {
    && s.phase !in {Raised, Failed} && t.phase == Raised && t.dest == s.dest
    && (s.temp.None? <==> t.temp.None?)
    && (s.temp.Some? ==> s.temp.value.text <= t.temp.value.text && s.temp.value.durable == t.temp.value.durable)
  }

  /** The temporary file is unlinked, or the unlinking fails and is ignored. */
  predicate CleanUp(s: State, t: State)
  {
    s.phase == Raised && t.phase == Failed && t.dest == s.dest && t.temp in {s.temp, None}
  }

  /** The system may write back at any time. */
  predicate WriteBack(s: State, t: State)
  {
    && s.temp.Some? && t == s.(temp := t.temp) && t.temp.Some?
    && t.temp.value.text == s.temp.value.text
    && s.temp.value.durable <= t.temp.value.durable <= |s.temp.value.text|
  }

  predicate Step(chunks: seq<string>, s: State, t: State)
  {
    || MakeTemp(s, t) || WriteChunk(chunks, s, t) || Flush(chunks, s, t) || Sync(s, t)
    || Replace(s, t) || Raise(s, t) || CleanUp(s, t) || WriteBack(s, t)
  }

  predicate Run(chunks: seq<string>, prior: Option<File>, run: seq<State>)
  {
    && run != [] && Initial(run[0], prior)
    && forall k :: 0 <= k < |run| - 1 ==> Step(chunks, run[k], run[k + 1])
  }

  /** The complete new file, wholly durable. */
  function Complete(chunks: seq<string>): File { File(Concat(chunks), |Concat(chunks)|) }

  /** What every step keeps. */
  predicate Kept(chunks: seq<string>, prior: Option<File>, s: State)
  {
    match s.phase
    case Start => s.dest == prior && s.temp.None? && s.buffer == ""
    case Writing(next) =>
      && s.dest == prior && s.temp.Some? && next <= |chunks|
      && s.temp.value.text + s.buffer == Concat(chunks[..next])
    case Flushed => s.dest == prior && s.temp.Some? && s.temp.value.text == Concat(chunks)
    case Synced => s.dest == prior && s.temp == Some(Complete(chunks))
    case Replaced => s.dest == Some(Complete(chunks)) && s.temp.None?
    case Raised => s.dest == prior || (s.dest == Some(Complete(chunks)) && s.temp.None?)
    case Failed => s.dest == prior || (s.dest == Some(Complete(chunks)) && s.temp.None?)
  }

  lemma {:induction false} StepKeeps(chunks: seq<string>, prior: Option<File>, s: State, t: State)
    requires Kept(chunks, prior, s) && Step(chunks, s, t)
    ensures Kept(chunks, prior, t)
  {
    if WriteChunk(chunks, s, t) {
      var k := s.phase.next;
      assert chunks[..k + 1][..k] == chunks[..k];
    } else if Flush(chunks, s, t) {
      assert chunks[..|chunks|] == chunks;
    }
  }

  lemma {:induction false} RunKeeps(chunks: seq<string>, prior: Option<File>, run: seq<State>, k: nat)
    requires Run(chunks, prior, run) && k < |run|
    ensures Kept(chunks, prior, run[k])
  {
    if k > 0 {
      RunKeeps(chunks, prior, run, k - 1);
      StepKeeps(chunks, prior, run[k - 1], run[k]);
    }
  }

  /** Crash safety: whatever the run and the moment, the destination holds exactly what it held or
      the complete new text, never a part of it. Without an exception the new text is there at the
      end, and an exception before the replacement leaves the old file. */
  lemma {:induction false} OldOrComplete(chunks: seq<string>, prior: Option<File>, run: seq<State>, k: nat,
                                         found: Option<string>)
    requires Run(chunks, prior, run) && k < |run| && AfterCrash(run[k].dest, found)
    ensures found == Some(Concat(chunks)) || found == (match prior case None => None case Some(f) => Some(f.text))
    ensures run[k].phase == Replaced ==> found == Some(Concat(chunks))
  {
    RunKeeps(chunks, prior, run, k);
    if found.Some? { WholePrefix(found.value, run[k].dest.value.text); }
  }

  lemma {:induction false} WholePrefix(part: string, whole: string)
    ensures part <= whole && |part| >= |whole| ==> part == whole
  {
    if part <= whole && |part| >= |whole| { assert whole[..|part|] == whole; }
  }

  /** The replacement is what makes the difference: until some state has replaced, the old file stands. */
  lemma {:induction false} OldUntilReplaced(chunks: seq<string>, prior: Option<File>, run: seq<State>, k: nat)
    requires Run(chunks, prior, run) && k < |run|
    requires forall j :: 0 <= j <= k ==> run[j].phase != Replaced
    ensures run[k].dest == prior
  {
    if k > 0 { OldUntilReplaced(chunks, prior, run, k - 1); }
  }

  /** A run without faults gets to the replacement. */
  lemma {:induction false} Writes(chunks: seq<string>, prior: Option<File>, k: nat) returns (run: seq<State>)
    requires k <= |chunks| && (prior.Some? ==> prior.value.durable == |prior.value.text|)
    ensures Run(chunks, prior, run)
    ensures run[|run| - 1] == State(prior, Some(File(Concat(chunks[..k]), 0)), "", Writing(k))
  {
    if k == 0 {
      var start := State(prior, None, "", Start);
      run := [start, start.(temp := Some(File("", 0)), phase := Writing(0))];
    } else {
      var before := Writes(chunks, prior, k - 1);
      assert chunks[..k][..k - 1] == chunks[..k - 1];
      run := before + [State(prior, Some(File(Concat(chunks[..k]), 0)), "", Writing(k))];
      assert WriteChunk(chunks, before[|before| - 1], run[|before|]);
    }
  }

  lemma {:induction false} Completes(chunks: seq<string>, prior: Option<File>) returns (run: seq<State>)
    requires prior.Some? ==> prior.value.durable == |prior.value.text|
    ensures Run(chunks, prior, run) && run[|run| - 1] == State(Some(Complete(chunks)), None, "", Replaced)
  {
    var before := Writes(chunks, prior, |chunks|);
    assert chunks[..|chunks|] == chunks;
    assert Concat(chunks) + "" == Concat(chunks);
    var flushed := State(prior, Some(File(Concat(chunks), 0)), "", Flushed);
    var synced := flushed.(temp := Some(Complete(chunks)), phase := Synced);
    var done := synced.(dest := synced.temp, temp := None, phase := Replaced);
    run := before + [flushed, synced, done];
    assert Flush(chunks, before[|before| - 1], flushed) && Sync(flushed, synced) && Replace(synced, done);
  }

  /** The step that must not be skipped: had the replacement come before the sync, a crash could
      leave any beginning of the text at the destination. */
  lemma {:induction false} SyncIsNeeded(chunks: seq<string>, prior: Option<File>, part: string)
    requires part <= Concat(chunks)
    ensures
      var flushed := State(prior, Some(File(Concat(chunks), 0)), "", Flushed);
      Kept(chunks, prior, flushed) && AfterCrash(flushed.(dest := flushed.temp, temp := None).dest, Some(part))
  {}
}
