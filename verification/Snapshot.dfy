/**
 The observation lines: CPU3 publishes word by word between a zeroed and a final commit word, Linux reads word by word
 and believes what it read only if commit and its inverse agree. Words are sequentially consistent.

 Both lines of the source are instances: N is 8 for the worker observation and 4 for the TX-full observation.
 */
module Snapshot {
  import opened Words
  import opened Sequences

  /** The three words the reader judges by, and the N fields in between. */
  datatype Line = Line(commit: u32, magic: u32, fields: seq<u32>, inverse: u32)

  /** What the writer has stored of the publication under way. */
  datatype WriterPc = Quiet | Zeroed | Filling(done: nat) | Inverted

  datatype ReaderPc = Outside | AwaitMagic | Reading(done: nat) | AwaitInverse | Done

  datatype Copy = Copy(first: u32, magic: u32, fields: seq<u32>, second: u32, inverse: u32)

  /**
   `published` lists the fields of every finished publication; `current` is the one under way. The history of a read:
   how many publications had finished when the commit word was read first and second, and whether the writer moved.
   */
  datatype State = State(
    line: Line, writer: WriterPc, current: seq<u32>, published: seq<seq<u32>>,
    reader: ReaderPc, copy: Copy, atFirst: nat, atSecond: nat, moved: bool)

  datatype Act = Write(value: u32) | StartRead | Read

  function Inverse(v: u32): u32 { MODULUS - 1 - v }

  function WriteNext(s: State, magic: u32, value: u32): State
    requires s.writer.Filling? ==> s.writer.done <= |s.line.fields|
  {
    var t := s.(moved := true);
    match s.writer
    case Quiet => t.(line := s.line.(commit := 0), current := [], writer := Zeroed)
    case Zeroed => t.(line := s.line.(magic := magic), writer := Filling(0))
    case Filling(done) =>
      if done < |s.line.fields| then
        t.(line := s.line.(fields := s.line.fields[done := value]), current := s.current + [value],
        writer := Filling(done + 1))
      else t.(line := s.line.(inverse := Inverse(Draw(|s.published| + 1))), writer := Inverted)
    case Inverted =>
      t.(line := s.line.(commit := Draw(|s.published| + 1)), published := s.published + [s.current], writer := Quiet)
  }

  function ReadNext(s: State): State
    requires s.reader.Reading? ==> s.reader.done <= |s.line.fields|
  {
    match s.reader
    case Outside => s
    case AwaitMagic => s.(copy := s.copy.(magic := s.line.magic), reader := Reading(0))
    case Reading(done) =>
      if done < |s.line.fields| then
        s.(copy := s.copy.(fields := s.copy.fields + [s.line.fields[done]]), reader := Reading(done + 1))
      else s.(copy := s.copy.(second := s.line.commit), atSecond := |s.published|, reader := AwaitInverse)
    case AwaitInverse => s.(copy := s.copy.(inverse := s.line.inverse), reader := Done)
    case Done => s
  }

  /** Neither side has gone past the end of the line. */
  predicate Shape(s: State)
  {
    && (s.writer.Filling? ==> s.writer.done <= |s.line.fields|)
    && (s.reader.Reading? ==> s.reader.done <= |s.line.fields|)
  }

  function Step(s: State, magic: u32, a: Act): State
    requires Shape(s)
  {
    match a
    case Write(value) => WriteNext(s, magic, value)
    case StartRead =>
      s.(copy := Copy(s.line.commit, 0, [], 0, 0), atFirst := |s.published|, atSecond := 0, moved := s.writer != Quiet,
      reader := AwaitMagic)
    case Read => ReadNext(s)
  }

  /** The reader's verdict. */
  predicate Valid(c: Copy, magic: u32)
  {
    c.magic == magic && c.first != 0 && c.first == c.second && c.inverse == Inverse(c.second)
  }

  ghost predicate Writer(s: State, n: nat, magic: u32)
  {
    && |s.line.fields| == n && (forall p | p in s.published :: |p| == n)
    && (s.writer != Quiet ==> s.line.commit == 0)
    && (s.writer == Zeroed ==> s.current == [])
    && (s.writer == Quiet ==> s.line.commit == Draw(|s.published|))
    && (s.writer == Quiet && s.published != [] ==>
          s.line.fields == s.published[|s.published| - 1] && s.line.magic == magic
          && s.line.inverse == Inverse(s.line.commit))
    && (s.writer.Filling? ==>
          s.writer.done <= n && s.current == s.line.fields[..s.writer.done] && s.line.magic == magic)
    && (s.writer == Inverted ==>
          s.current == s.line.fields && s.line.magic == magic && s.line.inverse == Inverse(Draw(|s.published| + 1)))
  }

  /** Where the commit word has not changed since it was read first, the publication has not changed either. */
  ghost predicate Unmoved(s: State) { s.writer == Quiet && |s.published| == s.atFirst }

  ghost predicate Closed(s: State) { s.reader == AwaitInverse || s.reader == Done }

  ghost predicate Reader(s: State, n: nat, magic: u32)
  {
    && (s.reader != Outside ==> s.atFirst <= |s.published|)
    && (s.reader != Outside && s.copy.first != 0 ==> s.copy.first == Draw(s.atFirst) && 0 < s.atFirst)
    && (s.reader == AwaitMagic ==> s.copy.fields == [])
    && (s.reader.Reading? ==> |s.copy.fields| == s.reader.done <= n)
    && (Closed(s) ==> |s.copy.fields| == n)
    && (s.reader.Reading? && s.copy.first != 0 && Unmoved(s) ==> s.copy.fields <= s.published[s.atFirst - 1])
    && (Closed(s) && s.copy.first != 0 && s.copy.first == s.copy.second && s.atSecond < s.atFirst + CYCLE ==>
          s.atFirst <= s.atSecond && s.copy.fields == s.published[s.atFirst - 1])
    && (s.reader != Outside && !s.moved ==> Undisturbed(s))
  }

  /** While the writer stays out, whatever has been copied equals the line. */
  ghost predicate Undisturbed(s: State)
  {
    && Unmoved(s) && s.copy.first == s.line.commit
    && (Closed(s) ==> s.copy.second == s.line.commit)
    && (s.reader == Done ==> s.copy.inverse == s.line.inverse)
    && (s.reader.Reading? || Closed(s) ==> s.copy.magic == s.line.magic)
  }

  ghost predicate Inv(s: State, n: nat, magic: u32) { Writer(s, n, magic) && Reader(s, n, magic) }

  lemma DrawIsNotZero(k: nat)
    requires k > 0
    ensures Draw(k) != 0
  {
    DrawClosedForm(k);
  }

  lemma WriteKeeps(s: State, n: nat, magic: u32, value: u32)
    requires Inv(s, n, magic)
    ensures Inv(WriteNext(s, magic, value), n, magic)
  {
    hide Draw;
    var t := WriteNext(s, magic, value);
    match s.writer {
      case Filling(done) =>
        if done < n {
          assert t.line.fields[..done + 1] == s.line.fields[..done] + [value];
        } else {
          assert s.line.fields[..n] == s.line.fields;
        }
      case _ =>
    }
    assert forall i | 0 <= i < |s.published| :: t.published[i] == s.published[i];
  }

  lemma ReadKeeps(s: State, n: nat, magic: u32)
    requires Inv(s, n, magic)
    ensures Inv(ReadNext(s), n, magic)
  {
    hide Draw;
    if s.reader == Reading(n) && s.copy.first != 0 && s.copy.first == s.line.commit
       && |s.published| < s.atFirst + CYCLE {
      DrawsRepeatExactlyByCycle(s.atFirst, |s.published|);
      assert Unmoved(s);
    }
  }

  lemma StepKeeps(s: State, n: nat, magic: u32, a: Act)
    requires Inv(s, n, magic)
    ensures Inv(Step(s, magic, a), n, magic)
  {
    hide Draw;
    match a {
      case Write(value) => WriteKeeps(s, n, magic, value);
      case StartRead =>
        if |s.published| > 0 {
          DrawIsNotZero(|s.published|);
        } else {
          DrawStartsAtZero();
        }
      case Read => ReadKeeps(s, n, magic);
    }
  }

  lemma DrawStartsAtZero()
    ensures Draw(0) == 0
  {
  }

  /** Zeroed memory, nothing published, nothing read. */
  ghost predicate Init(s: State, n: nat)
  {
    && s.line == Line(0, 0, seq(n, _ => 0), 0) && s.writer == Quiet && s.current == [] && s.published == []
    && s.reader == Outside
  }

  /** A run of one writer and one reader of the line. */
  ghost predicate Trace(states: seq<State>, n: nat, magic: u32, acts: seq<Act>)
  {
    && |states| == |acts| + 1 && Init(states[0], n)
    && forall i | 0 <= i < |acts| :: Follows(states[i], magic, acts[i], states[i + 1])
  }

  ghost predicate Follows(s: State, magic: u32, a: Act, t: State) { Shape(s) ==> t == Step(s, magic, a) }

  lemma {:induction false} TraceKeeps(states: seq<State>, n: nat, magic: u32, acts: seq<Act>, k: nat)
    requires Trace(states, n, magic, acts) && k < |states|
    ensures Inv(states[k], n, magic)
  {
    if k > 0 {
      TraceKeeps(states, n, magic, acts, k - 1);
      StepKeeps(states[k - 1], n, magic, acts[k - 1]);
      assert Follows(states[k - 1], magic, acts[k - 1], states[k]);
      hide Step;
    } else {
      DrawStartsAtZero();
    }
  }

  /**
   Not torn: a snapshot judged valid holds the fields of one single publication, the one its commit word numbers,
   unless a whole cycle of publications went by during the read.
   */
  lemma ValidSnapshotIsOnePublication(states: seq<State>, n: nat, magic: u32, acts: seq<Act>, k: nat)
    requires Trace(states, n, magic, acts) && k < |states|
    ensures var t := states[k];
            t.reader == Done && Valid(t.copy, magic) && t.atSecond < t.atFirst + CYCLE ==>
              0 < t.atFirst <= |t.published| && t.copy.fields == t.published[t.atFirst - 1]
              && t.copy.first == Draw(t.atFirst)
  {
    TraceKeeps(states, n, magic, acts, k);
    DrawStartsAtZero();
  }

  /** And a read the writer stays out of is always judged valid, once anything was published. */
  lemma UndisturbedReadIsValid(states: seq<State>, n: nat, magic: u32, acts: seq<Act>, k: nat)
    requires Trace(states, n, magic, acts) && k < |states|
    ensures var t := states[k];
            t.reader == Done && !t.moved && t.atFirst > 0 ==> Valid(t.copy, magic)
  {
    TraceKeeps(states, n, magic, acts, k);
    if states[k].atFirst > 0 {
      DrawIsNotZero(states[k].atFirst);
    }
  }
}
