/**
 The clipboard monitor's polling: what one poll decides, and what that means over whole runs of polls mixed with
 updates made because this machine set the clipboard itself. Time is in nanoseconds and never runs backwards; the
 clipboard, the concealed flag and the frontmost application are whatever a poll happens to find.
 */
module ClipboardPoll {
  import opened Wrappers
  import opened Bytes

  type Time = nat
  type Identity = string

  const DEBOUNCE: Time := 200_000_000

  datatype Clip = Text(text: string) | Image(png: seq<byte>) | Files(paths: seq<string>)

  /** SHA-256 in hexadecimal and the UTF-8 encoding, neither of which is opened up here. */
  datatype Codec = Codec(digest: seq<byte> -> string, utf8: string -> seq<byte>)

  function JoinLines(lines: seq<string>): string {
    if lines == [] then "" else if |lines| == 1 then lines[0] else lines[0] + "\n" + JoinLines(lines[1..])
  }

  function IdentityOf(codec: Codec, clip: Clip): Identity {
    match clip
    case Text(text) => text
    case Image(png) => "monitorhop:image:" + codec.digest(png)
    case Files(paths) => "monitorhop:files:" + codec.digest(codec.utf8(JoinLines(paths)))
  }

  lemma PrefixedEqual(prefix: string, a: string, b: string)
    ensures prefix + a == prefix + b <==> a == b
  {
    if prefix + a == prefix + b {
      assert a == (prefix + a)[|prefix|..] == (prefix + b)[|prefix|..] == b;
    }
  }

  /**
   Two clips of one kind have the same identity exactly if they are the same text, or their images or joined file
   lists have the same digest; an image and a file list never do.
   */
  lemma SameIdentityExactly(codec: Codec, a: Clip, b: Clip)
    ensures a.Text? && b.Text? ==> (IdentityOf(codec, a) == IdentityOf(codec, b) <==> a.text == b.text)
    ensures a.Image? && b.Image? ==>
              (IdentityOf(codec, a) == IdentityOf(codec, b) <==> codec.digest(a.png) == codec.digest(b.png))
    ensures a.Files? && b.Files? ==>
              (IdentityOf(codec, a) == IdentityOf(codec, b) <==>
               codec.digest(codec.utf8(JoinLines(a.paths))) == codec.digest(codec.utf8(JoinLines(b.paths))))
    ensures a.Image? && b.Files? ==> IdentityOf(codec, a) != IdentityOf(codec, b)
  {
    if a.Image? && b.Image? {
      PrefixedEqual("monitorhop:image:", codec.digest(a.png), codec.digest(b.png));
    } else if a.Files? && b.Files? {
      PrefixedEqual("monitorhop:files:", codec.digest(codec.utf8(JoinLines(a.paths))),
                    codec.digest(codec.utf8(JoinLines(b.paths))));
    } else if a.Image? && b.Files? {
      assert IdentityOf(codec, a)[11] == 'i' && IdentityOf(codec, b)[11] == 'f';
    }
  }

  /** What the line breaks of a text leave between them; a text without any is one line. */
  function Lines(text: string): (lines: seq<string>)
    ensures lines != []
  {
    if text == "" then [""]
    else
      var rest := Lines(text[1..]);
      if text[0] == '\n' then [""] + rest else [[text[0]] + rest[0]] + rest[1..]
  }

  function LinesOfAll(texts: seq<string>): seq<string> {
    if texts == [] then [] else Lines(texts[0]) + LinesOfAll(texts[1..])
  }

  lemma {:induction false} LinesOfTwo(a: string, b: string)
    ensures Lines(a + "\n" + b) == Lines(a) + Lines(b)
  {
    var whole := a + "\n" + b;
    if a == "" {
      assert whole[0] == '\n' && whole[1..] == b;
    } else {
      LinesOfTwo(a[1..], b);
      assert whole[0] == a[0] && whole[1..] == a[1..] + "\n" + b;
    }
  }

  lemma {:induction false} LinesOfJoined(texts: seq<string>)
    requires texts != []
    ensures Lines(JoinLines(texts)) == LinesOfAll(texts)
  {
    if |texts| == 1 {
      assert LinesOfAll(texts[1..]) == [];
    } else {
      LinesOfJoined(texts[1..]);
      LinesOfTwo(texts[0], JoinLines(texts[1..]));
    }
  }

  lemma {:induction false} JoinedLines(text: string)
    ensures JoinLines(Lines(text)) == text
  {
    if text != "" {
      JoinedLines(text[1..]);
      var rest := Lines(text[1..]);
      if text[0] == '\n' {
        assert ([""] + rest)[1..] == rest;
        assert text == "" + "\n" + text[1..];
      } else {
        LongerFirstLine(text[0], rest);
        assert text == [text[0]] + text[1..];
      }
    }
  }

  lemma LongerFirstLine(c: char, lines: seq<string>)
    requires lines != []
    ensures JoinLines([[c] + lines[0]] + lines[1..]) == [c] + JoinLines(lines)
  {
    assert ([[c] + lines[0]] + lines[1..])[1..] == lines[1..];
    if |lines| > 1 {
      var rest := "\n" + JoinLines(lines[1..]);
      assert lines[0] + "\n" + JoinLines(lines[1..]) == lines[0] + rest;
      assert ([c] + lines[0]) + "\n" + JoinLines(lines[1..]) == [c] + (lines[0] + rest);
    }
  }

  /** Two file lists give the digest the same input exactly if their paths, broken into lines, are the same lines. */
  lemma JoinedAlikeExactly(a: seq<string>, b: seq<string>)
    requires a != [] && b != []
    ensures JoinLines(a) == JoinLines(b) <==> LinesOfAll(a) == LinesOfAll(b)
  {
    LinesOfJoined(a);
    LinesOfJoined(b);
    JoinedLines(JoinLines(a));
    JoinedLines(JoinLines(b));
  }

  lemma {:induction false} OneLine(text: string)
    requires '\n' !in text
    ensures Lines(text) == [text]
  {
    if text != "" {
      OneLine(text[1..]);
      assert text == [text[0]] + text[1..];
    }
  }

  /** So lists of paths without line breaks are never taken for each other. */
  lemma {:induction false} PlainPathsAreTheirLines(paths: seq<string>)
    requires forall i :: 0 <= i < |paths| ==> '\n' !in paths[i]
    ensures LinesOfAll(paths) == paths
  {
    if paths != [] {
      OneLine(paths[0]);
      PlainPathsAreTheirLines(paths[1..]);
      assert paths == [paths[0]] + paths[1..];
    }
  }

  /** A line break in a path spoils that: two different lists with one identity. */
  lemma LineBreakMerges(codec: Codec)
    ensures IdentityOf(codec, Files(["a", "b"])) == IdentityOf(codec, Files(["a\nb"]))
  {
    assert ["a", "b"][1..] == ["b"];
    assert JoinLines(["a", "b"]) == "a" + "\n" + "b" == "a\nb";
  }

  datatype Decision = Unchanged | Debounced | Suppressed | Emit {
    predicate AdvancesState() {
      Suppressed? || Emit?
    }
  }

  predicate Quiet(elapsed: Option<Time>) {
    elapsed.None? || elapsed.value > DEBOUNCE
  }

  predicate ContentMightEmit(current: Identity, last: Option<Identity>, elapsed: Option<Time>) {
    last != Some(current) && Quiet(elapsed)
  }

  function Classify(current: Identity, last: Option<Identity>, elapsed: Option<Time>, concealed: bool,
      suppressed: bool): Decision {
    if last == Some(current) then Unchanged
    else if !Quiet(elapsed) then Debounced
    else if concealed || suppressed then Suppressed
    else Emit
  }

  //
  // Polls and local updates
  //

  datatype Memory = Memory(lastContent: Option<Identity>, lastChange: Option<Time>)

  const BLANK := Memory(None, None)

  /** What a poll finds; `listed` is whether the frontmost application is in the suppression list. */
  datatype Sample = Sample(identity: Identity, readAt: Time, recordAt: Time, concealed: bool, listed: bool)

  datatype Step = Poll(sample: Sample) | Local(identity: Identity, at: Time)

  function Elapsed(m: Memory, now: Time): Option<Time> {
    if m.lastChange.None? then None
    else if now < m.lastChange.value then Some(0)
    else Some(now - m.lastChange.value)
  }

  /** The poll as written: suppression is looked into only when the content could be emitted at all. */
  function Decide(m: Memory, s: Sample): Decision {
    var elapsed := Elapsed(m, s.readAt);
    var needs := ContentMightEmit(s.identity, m.lastContent, elapsed);
    var concealed := needs && s.concealed;
    var suppressed := needs && !s.concealed && s.listed;
    Classify(s.identity, m.lastContent, elapsed, concealed, suppressed)
  }

  /** The poll that always looks. */
  function DecideEagerly(m: Memory, s: Sample): Decision {
    Classify(s.identity, m.lastContent, Elapsed(m, s.readAt), s.concealed, s.listed)
  }

  predicate Records(m: Memory, step: Step) {
    step.Local? || Decide(m, step.sample).AdvancesState()
  }

  function RecordedIdentity(step: Step): Identity {
    if step.Local? then step.identity else step.sample.identity
  }

  function StartOf(step: Step): Time {
    if step.Local? then step.at else step.sample.readAt
  }

  function EndOf(step: Step): Time {
    if step.Local? then step.at else step.sample.recordAt
  }

  function After(m: Memory, step: Step): Memory {
    if Records(m, step) then Memory(Some(RecordedIdentity(step)), Some(EndOf(step))) else m
  }

  predicate Emits(m: Memory, step: Step) {
    step.Poll? && Decide(m, step.sample).Emit?
  }

  /** Time is monotone within and between steps. */
  ghost predicate Run(steps: seq<Step>, states: seq<Memory>) {
    && |states| == |steps| + 1
    && states[0] == BLANK
    && (forall n {:trigger steps[n]} :: 0 <= n < |steps| ==>
        states[n + 1] == After(states[n], steps[n]) && StartOf(steps[n]) <= EndOf(steps[n]))
    && (forall i, j :: 0 <= i < j < |steps| ==> EndOf(steps[i]) <= StartOf(steps[j]))
  }

  //
  // Whole runs
  //

  function AfterEagerly(m: Memory, step: Step): Memory {
    if step.Local? || DecideEagerly(m, step.sample).AdvancesState() then Memory(Some(RecordedIdentity(step)),
        Some(EndOf(step)))
    else m
  }

  /** Looking into suppression only when it matters gives the same memory and the same emissions as always looking. */
  lemma {:induction false} LazyProbingIsExact(steps: seq<Step>, states: seq<Memory>, eager: seq<Memory>, n: nat)
    requires Run(steps, states) && n <= |steps|
    requires |eager| == |states| && eager[0] == BLANK
    requires forall i {:trigger steps[i]} :: 0 <= i < |steps| ==> eager[i + 1] == AfterEagerly(eager[i], steps[i])
    ensures states[n] == eager[n]
    ensures n < |steps| && steps[n].Poll? ==>
             Decide(states[n], steps[n].sample) == DecideEagerly(eager[n], steps[n].sample)
  {
    if n > 0 {
      LazyProbingIsExact(steps, states, eager, n - 1);
      assert states[n] == After(states[n - 1], steps[n - 1]);
    }
  }

  lemma StepAt(steps: seq<Step>, states: seq<Memory>, n: nat)
    requires Run(steps, states) && n < |steps|
    ensures states[n + 1] == After(states[n], steps[n])
  {
  }

  /** The last step before `n` that recorded anything, if one did. */
  ghost predicate Latest(steps: seq<Step>, states: seq<Memory>, last: Option<nat>, n: nat)
    requires n <= |steps| < |states|
  {
    && (last.Some? ==> last.value < n && Records(states[last.value], steps[last.value]))
    && forall k :: (if last.Some? then last.value + 1 else 0) <= k < n ==> !Records(states[k], steps[k])
  }

  lemma {:induction false} LastRecord(steps: seq<Step>, states: seq<Memory>, n: nat) returns (last: Option<nat>)
    requires Run(steps, states) && n <= |steps|
    ensures Latest(steps, states, last, n)
  {
    if n == 0 {
      last := None;
    } else if Records(states[n - 1], steps[n - 1]) {
      last := Some(n - 1);
    } else {
      last := LastRecord(steps, states, n - 1);
    }
  }

  /** The memory is that of the last recording step. */
  lemma {:induction false} RemembersLastRecord(steps: seq<Step>, states: seq<Memory>, last: Option<nat>, n: nat)
    requires Run(steps, states) && n <= |steps| && Latest(steps, states, last, n)
    ensures states[n] == if last.None? then BLANK
                         else Memory(Some(RecordedIdentity(steps[last.value])), Some(EndOf(steps[last.value])))
  {
    if n > 0 {
      StepAt(steps, states, n - 1);
      if last != Some(n - 1) {
        assert !Records(states[n - 1], steps[n - 1]);
        RemembersLastRecord(steps, states, last, n - 1);
      }
    }
  }

  /**
   Content once recorded, whether emitted, suppressed or set by this machine, is not emitted again until other
   content has been recorded: a focus change after copying a secret does not leak it, and echoes do not travel.
   */
  lemma NoReemission(steps: seq<Step>, states: seq<Memory>, i: nat, n: nat) returns (k: nat)
    requires Run(steps, states) && i < n < |steps|
    requires Records(states[i], steps[i]) && Emits(states[n], steps[n])
    requires steps[n].sample.identity == RecordedIdentity(steps[i])
    ensures i < k < n && Records(states[k], steps[k]) && RecordedIdentity(steps[k]) != RecordedIdentity(steps[i])
  {
    var last := LastRecord(steps, states, n);
    RemembersLastRecord(steps, states, last, n);
    k := last.value;
  }

  /** Every emission comes more than the debounce interval after anything recorded before it. */
  lemma EmissionsAreSpaced(steps: seq<Step>, states: seq<Memory>, i: nat, n: nat)
    requires Run(steps, states) && i < n < |steps|
    requires Records(states[i], steps[i]) && Emits(states[n], steps[n])
    ensures StartOf(steps[n]) > EndOf(steps[i]) + 200_000_000
  {
    var last := LastRecord(steps, states, n);
    RemembersLastRecord(steps, states, last, n);
    var k := last.value;
    assert EndOf(steps[k]) <= StartOf(steps[n]);
    if i < k {
      StepsAreOrdered(steps, states, i, k);
    }
  }

  lemma StepsAreOrdered(steps: seq<Step>, states: seq<Memory>, i: nat, k: nat)
    requires Run(steps, states) && i < k < |steps|
    ensures EndOf(steps[i]) <= EndOf(steps[k])
  {
    assert EndOf(steps[i]) <= StartOf(steps[k]);
    assert StartOf(steps[k]) <= EndOf(steps[k]);
  }

  /**
   And nothing else is held back: content is emitted exactly when it is not suppressed and, if anything has been
   recorded yet, differs from what was recorded last and comes late enough after it.
   */
  lemma EmittedExactly(steps: seq<Step>, states: seq<Memory>, last: Option<nat>, n: nat)
    requires Run(steps, states) && n < |steps| && steps[n].Poll? && Latest(steps, states, last, n)
    ensures var s := steps[n].sample;
            Emits(states[n], steps[n]) <==>
            && (last.Some? ==> s.identity != RecordedIdentity(steps[last.value])
                               && s.readAt > EndOf(steps[last.value]) + 200_000_000)
            && !s.concealed && !s.listed
  {
    RemembersLastRecord(steps, states, last, n);
    assert last.Some? ==> EndOf(steps[last.value]) <= StartOf(steps[n]);
  }

  /**
   What is remembered, field by field: local content always, and what a poll found exactly when it differs from what was
   recorded last and comes late enough after it, whether it is emitted or suppressed.
   */
  lemma RecordedExactly(steps: seq<Step>, states: seq<Memory>, last: Option<nat>, n: nat)
    requires Run(steps, states) && n < |steps| && Latest(steps, states, last, n)
    ensures match steps[n]
            case Local(identity, at) => states[n + 1] == Memory(Some(identity), Some(at))
            case Poll(s) =>
              if last.None? || (s.identity != RecordedIdentity(steps[last.value])
                                && s.readAt > EndOf(steps[last.value]) + 200_000_000)
              then states[n + 1] == Memory(Some(s.identity), Some(s.recordAt)) else states[n + 1] == states[n]
  {
    StepAt(steps, states, n);
    RemembersLastRecord(steps, states, last, n);
  }

  /** The same of any one poll, even one that reads a clock behind the last record. */
  lemma PollDecides(m: Memory, s: Sample)
    ensures var isNew := m.lastContent != Some(s.identity)
                         && (m.lastChange.Some? ==> s.readAt > m.lastChange.value + 200_000_000);
            && After(m, Poll(s)) == (if isNew then Memory(Some(s.identity), Some(s.recordAt)) else m)
            && (Emits(m, Poll(s)) <==> isNew && !s.concealed && !s.listed)
  {
  }

  //
  // The monitor
  //

  class ClipboardMonitor {
    var lastContent: Option<Identity>
    var lastChange: Option<Time>
    var enabled: bool
    var emitted: seq<Clip>
    const codec: Codec

    ghost function Model(): Memory
      reads this
    {
      Memory(lastContent, lastChange)
    }

    constructor (codec: Codec)
      ensures Model() == BLANK && enabled && emitted == [] && this.codec == codec
    {
      this.codec := codec;
      lastContent, lastChange, enabled, emitted := None, None, true, [];
    }

    method Enable()
      modifies `enabled
      ensures enabled
    {
      enabled := true;
    }

    method Disable()
      modifies `enabled
      ensures !enabled
    {
      enabled := false;
    }

    /** Remembers a payload this machine is about to find on its own clipboard. */
    method UpdateLastEvent(clip: Clip, now: Time)
      modifies `lastContent, `lastChange
      ensures Model() == After(old(Model()), Local(IdentityOf(codec, clip), now))
    {
      lastContent := Some(IdentityOf(codec, clip));
      lastChange := Some(now);
    }

    /** One tick: reads the clipboard, if it holds anything supported, and decides what to do about it. */
    method Tick(clip: Option<Clip>, readAt: Time, recordAt: Time, concealed: bool, listed: bool)
      modifies `lastContent, `lastChange, `emitted
      ensures !enabled || clip.None? ==> Model() == old(Model()) && emitted == old(emitted)
      ensures enabled && clip.Some? ==>
                var step := Poll(Sample(IdentityOf(codec, clip.value), readAt, recordAt, concealed, listed));
                && Model() == After(old(Model()), step)
                && emitted == if Emits(old(Model()), step) then old(emitted) + [clip.value] else old(emitted)
    {
      if !enabled || clip.None? {
        return;
      }
      var identity := IdentityOf(codec, clip.value);
      var elapsed := Elapsed(Memory(lastContent, lastChange), readAt);
      var isConcealed, isSuppressed := false, false;
      if ContentMightEmit(identity, lastContent, elapsed) {
        isConcealed := concealed;
        if !isConcealed {
          isSuppressed := listed;
        }
      }
      var decision := Classify(identity, lastContent, elapsed, isConcealed, isSuppressed);
      if decision.AdvancesState() {
        lastContent := Some(identity);
        lastChange := Some(recordAt);
      }
      if decision.Emit? {
        emitted := emitted + [clip.value];
      }
    }
  }
}
