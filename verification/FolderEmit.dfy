/**
 The streaming stages in front of the splitter (glue.c): the dictionary-window
 pump around an LZMA decoder and the branch-filter stage with its carry tail. The
 codec calls are known by their contracts only.
 */
module FolderEmit {
  import opened Bytes
  import opened Wrappers
  import opened FolderSplit

  const CHUNK: nat := 0x4_0000
  const BRANCH_SLACK: nat := 64
  const SZ_ERROR_READ: int := 8
  const TWO_32: nat := 0x1_0000_0000

  // ---- Branch filters ----

  /** A converter: state, pending bytes and position to the converted prefix and the next state. */
  type Converter<!S> = (S, seq<byte>, nat) -> (seq<byte>, S)

  /** The stream position after `n` more bytes, a 32-bit counter. */
  function Step(pc: nat, n: nat): nat {
    (pc + n) % TWO_32
  }

  /** Resuming behind the converted prefix with more input gives what converting it all at once gives. */
  ghost predicate ResumesAt<S(!new)>(conv: Converter<S>, st: S, b: seq<byte>, more: seq<byte>, pc: nat) {
    var (out, next) := conv(st, b, pc);
    |out| <= |b| && conv(st, b + more, pc).0 == out + conv(next, b[|out|..] + more, Step(pc, |out|)).0
  }

  /** Only a short tail is ever left unconverted. */
  ghost predicate ShortTail<S(!new)>(conv: Converter<S>, st: S, b: seq<byte>, pc: nat) {
    |conv(st, b, pc).0| <= |b| < |conv(st, b, pc).0| + BRANCH_SLACK
  }

  /** The converters' documented contract. */
  ghost predicate Resumable<S(!new)>(conv: Converter<S>) {
    && (forall st, b, pc :: ShortTail(conv, st, b, pc))
    && forall st, b, more, pc :: ResumesAt(conv, st, b, more, pc)
  }

  /** Converting a whole buffer at once: the short tail stays as it is. */
  ghost function Whole<S(!new)>(conv: Converter<S>, st: S, pc: nat, s: seq<byte>): seq<byte>
    requires Resumable(conv)
  {
    assert ShortTail(conv, st, s, pc);
    var out := conv(st, s, pc).0;
    out + s[|out|..]
  }

  /** What is handed on so far, followed by what the carried state makes of the rest, is what the whole stream gives. */
  ghost predicate Carries<S(!new)>(conv: Converter<S>, st0: S, pc0: nat, fed: seq<byte>, given: seq<byte>, st: S, pc: nat, pend: seq<byte>) {
    forall more :: CarriesOn(conv, st0, pc0, fed, given, st, pc, pend, more)
  }

  ghost predicate CarriesOn<S(!new)>(conv: Converter<S>, st0: S, pc0: nat, fed: seq<byte>, given: seq<byte>, st: S, pc: nat, pend: seq<byte>, more: seq<byte>) {
    conv(st0, fed + more, pc0).0 == given + conv(st, pend + more, pc).0
  }

  /** The carried bytes are the unconverted end of the stream. */
  ghost predicate Tail(fed: seq<byte>, given: seq<byte>, pend: seq<byte>) {
    |given| <= |fed| && fed[|given|..] == pend
  }

  lemma CarriesStart<S(!new)>(conv: Converter<S>, st0: S, pc0: nat)
    ensures Carries(conv, st0, pc0, [], [], st0, pc0, [])
  {
    forall more ensures CarriesOn(conv, st0, pc0, [], [], st0, pc0, [], more) {
      assert [] + conv(st0, [] + more, pc0).0 == conv(st0, [] + more, pc0).0;
    }
  }

  /** Bytes joining the pending ones are bytes joining the stream. */
  lemma CarriesMore<S(!new)>(conv: Converter<S>, st0: S, pc0: nat, fed: seq<byte>, given: seq<byte>, st: S, pc: nat, pend: seq<byte>, chunk: seq<byte>)
    requires Carries(conv, st0, pc0, fed, given, st, pc, pend)
    ensures Carries(conv, st0, pc0, fed + chunk, given, st, pc, pend + chunk)
  {
    forall more ensures CarriesOn(conv, st0, pc0, fed + chunk, given, st, pc, pend + chunk, more) {
      assert CarriesOn(conv, st0, pc0, fed, given, st, pc, pend, chunk + more);
      assert fed + (chunk + more) == fed + chunk + more && pend + (chunk + more) == pend + chunk + more;
    }
  }

  /** A conversion step hands on the converted prefix and keeps the rest. */
  lemma CarriesStep<S(!new)>(conv: Converter<S>, st0: S, pc0: nat, fed: seq<byte>, given: seq<byte>, st: S, pc: nat, pend: seq<byte>)
    requires Resumable(conv) && Carries(conv, st0, pc0, fed, given, st, pc, pend)
    ensures var (out, next) := conv(st, pend, pc);
            |out| <= |pend| && Carries(conv, st0, pc0, fed, given + out, next, Step(pc, |out|), pend[|out|..])
  {
    var (out, next) := conv(st, pend, pc);
    assert ShortTail(conv, st, pend, pc);
    forall more ensures CarriesOn(conv, st0, pc0, fed, given + out, next, Step(pc, |out|), pend[|out|..], more) {
      assert CarriesOn(conv, st0, pc0, fed, given, st, pc, pend, more);
      assert ResumesAt(conv, st, pend, more, pc);
      assert given + (out + conv(next, pend[|out|..] + more, Step(pc, |out|)).0) == given + out + conv(next, pend[|out|..] + more, Step(pc, |out|)).0;
    }
  }

  /** After a conversion step the tail converts no further by itself. */
  lemma TailIdle<S(!new)>(conv: Converter<S>, st: S, pend: seq<byte>, pc: nat)
    requires Resumable(conv)
    ensures var (out, next) := conv(st, pend, pc);
            |out| <= |pend| && conv(next, pend[|out|..], Step(pc, |out|)).0 == []
  {
    var (out, next) := conv(st, pend, pc);
    assert ResumesAt(conv, st, pend, [], pc);
    assert pend + [] == pend && pend[|out|..] + [] == pend[|out|..];
  }

  /** When nothing more converts, what is given plus the carried bytes is the whole conversion. */
  lemma CarriesEnd<S(!new)>(conv: Converter<S>, st0: S, pc0: nat, fed: seq<byte>, given: seq<byte>, st: S, pc: nat, pend: seq<byte>)
    requires Resumable(conv) && Carries(conv, st0, pc0, fed, given, st, pc, pend) && Tail(fed, given, pend) && conv(st, pend, pc).0 == []
    ensures Whole(conv, st0, pc0, fed) == given + pend
  {
    assert CarriesOn(conv, st0, pc0, fed, given, st, pc, pend, []);
    assert fed + [] == fed && pend + [] == pend;
  }

  /** What is given is settled: it starts the conversion of every stream that goes on from here. */
  lemma GivenSettled<S(!new)>(conv: Converter<S>, st0: S, pc0: nat, fed: seq<byte>, given: seq<byte>, st: S, pc: nat, pend: seq<byte>, more: seq<byte>)
    requires Resumable(conv) && Carries(conv, st0, pc0, fed, given, st, pc, pend)
    ensures given <= Whole(conv, st0, pc0, fed + more)
  {
    assert CarriesOn(conv, st0, pc0, fed, given, st, pc, pend, more);
    assert ShortTail(conv, st0, fed + more, pc0);
  }

  /** The branch stage: converted bytes go on to the splitter, the unconverted tail is carried at the front of the scratch buffer. */
  class Branch<S(!new)> {
    const conv: Converter<S>
    const sp: Split
    const scratch: array<byte>
    ghost const st0: S
    ghost const pc0: nat
    var st: S
    var pc: nat
    var pendLen: nat

    ghost predicate Valid(fed: seq<byte>, given: seq<byte>, base: map<nat, seq<byte>>)
      reads this, sp, scratch
    {
      && scratch.Length == CHUNK + BRANCH_SLACK && pendLen < BRANCH_SLACK && pc < TWO_32 && Resumable(conv)
      && sp.Valid(given, base)
      && Tail(fed, given, scratch[..pendLen]) && Carries(conv, st0, pc0, fed, given, st, pc, scratch[..pendLen])
      && conv(st, scratch[..pendLen], pc).0 == []
    }

    constructor (conv: Converter<S>, st: S, pc: nat, sp: Split, ghost base: map<nat, seq<byte>>)
      requires Resumable(conv) && sp.Valid([], base) && pc < TWO_32
      ensures this.conv == conv && this.sp == sp && this.st0 == st && this.pc0 == pc && fresh(scratch)
      ensures Valid([], [], base)
    {
      this.conv, this.sp, st0, pc0 := conv, sp, st, pc;
      this.st, this.pc, pendLen := st, pc, 0;
      scratch := new byte[CHUNK + BRANCH_SLACK](_ => 0);
      new;
      assert scratch[..0] == [];
      CarriesStart(conv, st, pc);
      assert ShortTail(conv, st, [], pc);
    }

    /** Copy as much as fits behind the carried bytes. */
    method Append(chunk: seq<byte>)
      requires pendLen + |chunk| <= scratch.Length
      modifies this, scratch
      ensures pendLen == old(pendLen) + |chunk| && st == old(st) && pc == old(pc)
      ensures scratch[..pendLen] == old(scratch[..pendLen]) + chunk
    {
      forall i | 0 <= i < |chunk| {
        scratch[pendLen + i] := chunk[i];
      }
      pendLen := pendLen + |chunk|;
    }

    /** `memmove` the unconverted end to the front. */
    method Drop(done: nat)
      requires done <= pendLen <= scratch.Length
      modifies this, scratch
      ensures pendLen == old(pendLen) - done && st == old(st) && pc == old(pc)
      ensures scratch[..pendLen] == old(scratch[done..pendLen])
    {
      forall i | 0 <= i < pendLen - done {
        scratch[i] := scratch[done + i];
      }
      pendLen := pendLen - done;
    }

    /** `emit` for branch filters, for any piece of the unfiltered stream. */
    method Emit(buf: seq<byte>, ghost fed: seq<byte>, ghost given0: seq<byte>, ghost base: map<nat, seq<byte>>)
      returns (code: int, ghost given: seq<byte>)
      requires Valid(fed, given0, base)
      modifies this, sp, scratch
      ensures JobOk(sp.job)
      ensures code == SZ_OK ==> Valid(fed + buf, given, base)
      ensures code != SZ_OK ==> Resumable(conv) && Hopeless(sp.job, given) && forall more :: given <= Whole(conv, st0, pc0, fed + buf + more)
    {
      hide Hopeless, JobOk, Resumable, Carries, Tail, Whole, Open, CrcUpdate;
      given := given0;
      SplitJob(sp, given, base);
      var at := 0;
      assert fed + buf[..0] == fed;
      while at < |buf|
        invariant at <= |buf| && Valid(fed + buf[..at], given, base)
      {
        var space := scratch.Length - pendLen;
        var take := if |buf| - at < space then |buf| - at else space;
        var chunk := buf[at..at + take];
        ghost var now := fed + buf[..at];
        code, given := Convert(chunk, now, given, base);
        assert now + chunk == fed + buf[..at + take];
        if code != SZ_OK {
          forall more ensures given <= Whole(conv, st0, pc0, fed + buf + more) {
            assert fed + buf + more == now + chunk + (buf[at + take..] + more);
          }
          return;
        }
        at := at + take;
      }
      assert buf[..at] == buf;
      code := SZ_OK;
    }

    /** One round: append, convert what converts, pass it on, keep the tail. */
    method Convert(chunk: seq<byte>, ghost fed: seq<byte>, ghost given0: seq<byte>, ghost base: map<nat, seq<byte>>)
      returns (code: int, ghost given: seq<byte>)
      requires Valid(fed, given0, base) && 0 < |chunk| <= scratch.Length - pendLen
      modifies this, sp, scratch
      ensures JobOk(sp.job)
      ensures code == SZ_OK ==> Valid(fed + chunk, given, base)
      ensures code != SZ_OK ==> Resumable(conv) && Hopeless(sp.job, given) && forall more :: given <= Whole(conv, st0, pc0, fed + chunk + more)
    {
      hide Hopeless, JobOk, Resumable, Carries, Whole, Open, CrcUpdate;
      SplitJob(sp, given0, base);
      ghost var pend := scratch[..pendLen] + chunk;
      CarriesMore(conv, st0, pc0, fed, given0, st, pc, scratch[..pendLen], chunk);
      Append(chunk);
      assert Tail(fed + chunk, given0, pend);
      CarriesStep(conv, st0, pc0, fed + chunk, given0, st, pc, pend);
      TailIdle(conv, st, pend, pc);
      Shortens(conv, st, pend, pc);
      var (out, next) := conv(st, scratch[..pendLen], pc);
      var done := |out|;
      given := given0 + out;
      st := next;
      if done != 0 {
        code := sp.Feed(out, given0, base);
        if code != SZ_OK {
          forall more ensures given <= Whole(conv, st0, pc0, fed + chunk + more) {
            GivenSettled(conv, st0, pc0, fed + chunk, given, next, Step(pc, done), pend[done..], more);
          }
          return;
        }
        pc := Step(pc, done);
        Drop(done);
      } else {
        assert given0 + [] == given0;
        StepNothing(pc);
      }
      code := SZ_OK;
    }

    /** `emit_finish`: the carried bytes go on as they are. */
    method Finish(ghost fed: seq<byte>, ghost given: seq<byte>, ghost base: map<nat, seq<byte>>) returns (code: int)
      requires Valid(fed, given, base)
      modifies this, sp
      ensures JobOk(sp.job)
      ensures code == SZ_OK ==> sp.Valid(Whole(conv, st0, pc0, fed), base)
      ensures code != SZ_OK ==> Hopeless(sp.job, Whole(conv, st0, pc0, fed))
    {
      hide Hopeless, JobOk, Resumable, Carries, Whole, Open, CrcUpdate;
      SplitJob(sp, given, base);
      CarriesEnd(conv, st0, pc0, fed, given, st, pc, scratch[..pendLen]);
      if pendLen == 0 {
        assert given + scratch[..pendLen] == given;
        return SZ_OK;
      }
      code := sp.Feed(scratch[..pendLen], given, base);
    }
  }

  lemma SplitJob(sp: Split, given: seq<byte>, base: map<nat, seq<byte>>)
    requires sp.Valid(given, base)
    ensures JobOk(sp.job)
  {
  }

  lemma Shortens<S(!new)>(conv: Converter<S>, st: S, b: seq<byte>, pc: nat)
    requires Resumable(conv)
    ensures |conv(st, b, pc).0| <= |b| < |conv(st, b, pc).0| + BRANCH_SLACK
  {
    assert ShortTail(conv, st, b, pc);
  }

  /** A 32-bit position is unchanged by a step of nothing. */
  lemma StepNothing(pc: nat)
    requires pc < TWO_32
    ensures Step(pc, 0) == pc
  {
  }

  /**
   A filtered folder, however its unfiltered stream is cut into pieces: it succeeds
   exactly when the job accepts the whole-buffer conversion of the stream, and the
   sinks then hold the members of that conversion.
   */
  method RunFiltered<S(!new)>(conv: Converter<S>, st: S, pc: nat, j: Job, folderCrc: Option<bv32>, pieces: seq<seq<byte>>, sinks: map<nat, seq<byte>>)
    returns (code: int, after: map<nat, seq<byte>>)
    requires Resumable(conv) && pc < TWO_32 && JobOk(j)
    ensures code == SZ_OK <==> Accepts(j, folderCrc, Whole(conv, st, pc, Concat(pieces)))
    ensures code == SZ_OK ==> Delivered(j, Whole(conv, st, pc, Concat(pieces)), sinks, after)
  {
    hide JobOk, Accepts, Delivered, Hopeless, Resumable, Whole, Carries, Tail, Open, CrcUpdate;
    var sp := new Split(j, sinks);
    var e := new Branch(conv, st, pc, sp, sinks);
    ghost var given := [];
    for n := 0 to |pieces|
      invariant e.sp == sp && sp.job == j && e.conv == conv && e.st0 == st && e.pc0 == pc && fresh(e.scratch)
      invariant e.Valid(Concat(pieces[..n]), given, sinks)
    {
      assert pieces[..n + 1][..n] == pieces[..n];
      code, given := e.Emit(pieces[n], Concat(pieces[..n]), given, sinks);
      if code != SZ_OK {
        ghost var rest := ConcatPrefix(pieces, n + 1);
        GivenHopeless(j, folderCrc, given, Whole(conv, st, pc, Concat(pieces[..n + 1]) + rest));
        return code, sp.sinks;
      }
    }
    assert pieces[..|pieces|] == pieces;
    code := e.Finish(Concat(pieces), given, sinks);
    if code != SZ_OK {
      GivenHopeless(j, folderCrc, Whole(conv, st, pc, Concat(pieces)), Whole(conv, st, pc, Concat(pieces)));
      return code, sp.sinks;
    }
    code := sp.Finish(folderCrc, Whole(conv, st, pc, Concat(pieces)), sinks);
    after := sp.sinks;
  }

  lemma GivenHopeless(j: Job, folderCrc: Option<bv32>, given: seq<byte>, s: seq<byte>)
    requires JobOk(j) && Hopeless(j, given) && given <= s
    ensures !Accepts(j, folderCrc, s)
  {
    assert s == given + s[|given|..];
    HopelessStays(j, folderCrc, given, s[|given|..]);
  }

  // ---- The LZMA pump ----

  /** One decoder call: input taken, bytes produced into the window, an error code, and whether the end mark was met. */
  datatype Call<S> = Call(state: S, consumed: nat, produced: seq<byte>, res: int, mark: bool)

  /** A decoder: state, input, room in the window and finish mode to what it does. */
  type LzmaStep<!S> = (S, seq<byte>, nat, bool) -> Call<S>

  /** The calling contract: no more input than offered, no more output than room. */
  ghost predicate CallOk<S(!new)>(step: LzmaStep<S>, st: S, input: seq<byte>, room: nat, finish: bool) {
    var c := step(st, input, room, finish);
    c.consumed <= |input| && |c.produced| <= room
  }

  ghost predicate KeepsContract<S(!new)>(step: LzmaStep<S>) {
    forall st, input, room, finish :: CallOk(step, st, input, room, finish)
  }

  /** A look at the packed stream: at most what is asked, at most what is there, or a read error. */
  ghost predicate LookOk(look: (nat, nat) -> Option<nat>, packed: seq<byte>, at: nat, want: nat) {
    look(at, want).Some? ==> look(at, want).value <= want && (at <= |packed| ==> at + look(at, want).value <= |packed|)
  }

  ghost predicate Looks(look: (nat, nat) -> Option<nat>, packed: seq<byte>) {
    forall at, want :: LookOk(look, packed, at, want)
  }

  /** A stream that can be read: a look never fails and shows something while there is something. */
  ghost predicate Shows(look: (nat, nat) -> Option<nat>, packed: seq<byte>, at: nat, want: nat) {
    look(at, want).Some? && (at < |packed| && want > 0 ==> look(at, want).value > 0)
  }

  ghost predicate Readable(look: (nat, nat) -> Option<nat>, packed: seq<byte>) {
    forall at, want :: Shows(look, packed, at, want)
  }

  /** Put produced bytes into the window. */
  method Produce(dic: array<byte>, at: nat, s: seq<byte>)
    requires at + |s| <= dic.Length
    modifies dic
    ensures dic[at..at + |s|] == s
  {
    forall i | 0 <= i < |s| {
      dic[at + i] := s[i];
    }
  }

  /** How far a decoder is: `read` bytes of its packed stream taken, `made` bytes of its output produced. */
  datatype Progress<!S> = Progress(read: S -> nat, made: S -> nat)

  /** The input offered is what the packed stream goes on with. */
  ghost predicate Offered<S(!new)>(p: Progress<S>, packed: seq<byte>, d: seq<byte>, st: S, input: seq<byte>) {
    p.read(st) <= |packed| && p.made(st) <= |d| && input <= packed[p.read(st)..]
  }

  /** Offered what the stream goes on with, the decoder goes on with `d` or reports an error. */
  ghost predicate CallDecodes<S(!new)>(step: LzmaStep<S>, p: Progress<S>, packed: seq<byte>, d: seq<byte>, st: S, input: seq<byte>, room: nat, finish: bool) {
    var c := step(st, input, room, finish);
    Offered(p, packed, d, st, input) && c.res == SZ_OK ==>
      && p.read(c.state) == p.read(st) + c.consumed
      && p.made(c.state) == p.made(st) + |c.produced| <= |d|
      && c.produced == d[p.made(st)..p.made(st) + |c.produced|]
  }

  /** A decoder that turns `packed` into `d` from `st0` on, in whatever pieces it is offered and whatever room it has. */
  ghost predicate Decodes<S(!new)>(step: LzmaStep<S>, st0: S, p: Progress<S>, packed: seq<byte>, d: seq<byte>) {
    && p.read(st0) == 0 && p.made(st0) == 0
    && forall st, input, room, finish :: CallDecodes(step, p, packed, d, st, input, room, finish)
  }

  /** With input to take or output to make, a call does some of it; the end mark comes at the end only. */
  ghost predicate CallAdvances<S(!new)>(step: LzmaStep<S>, p: Progress<S>, packed: seq<byte>, d: seq<byte>, st: S, input: seq<byte>, room: nat, finish: bool) {
    var c := step(st, input, room, finish);
    Offered(p, packed, d, st, input) && (p.read(st) < |packed| ==> input != []) && (p.made(st) < |d| ==> room > 0) ==>
      && c.res == SZ_OK
      && (c.mark ==> p.read(c.state) == |packed| && p.made(c.state) == |d|)
      && (p.read(st) < |packed| || p.made(st) < |d| ==> c.consumed > 0 || c.produced != [])
  }

  /** A decoder with a sound stream in front of it. */
  ghost predicate Advances<S(!new)>(step: LzmaStep<S>, p: Progress<S>, packed: seq<byte>, d: seq<byte>) {
    forall st, input, room, finish :: CallAdvances(step, p, packed, d, st, input, room, finish)
  }

  /** The stored method as such a decoder: what is offered, as far as there is room. */
  function Stored(st: nat, input: seq<byte>, room: nat, finish: bool): Call<nat> {
    var n := if |input| < room then |input| else room;
    Call(st + n, n, input[..n], SZ_OK, false)
  }

  function Count(n: nat): nat { n }

  lemma StoredDecodes(packed: seq<byte>)
    ensures var p := Progress(Count, Count);
            KeepsContract(Stored) && Decodes(Stored, 0, p, packed, packed) && Advances(Stored, p, packed, packed)
  {
    var p := Progress(Count, Count);
    forall st: nat, input, room: nat, finish ensures CallOk(Stored, st, input, room, finish) && CallDecodes(Stored, p, packed, packed, st, input, room, finish) {
      if Offered(p, packed, packed, st, input) {
        var c := Stored(st, input, room, finish);
        assert c.produced == packed[st..][..c.consumed] == packed[st..st + c.consumed];
      }
    }
    forall st: nat, input, room: nat, finish ensures CallAdvances(Stored, p, packed, packed, st, input, room, finish) {
    }
  }

  lemma ConcatOne(spans: seq<seq<byte>>, span: seq<byte>)
    ensures Concat(spans + [span]) == Concat(spans) + span
  {
    assert (spans + [span])[..|spans|] == spans;
  }

  /** What a run of the pump has done so far, for a decoder of `d`. */
  ghost predicate InStep<S(!new)>(step: LzmaStep<S>, st0: S, p: Progress<S>, packed: seq<byte>, d: seq<byte>, st: S, taken: nat, handed: seq<byte>) {
    Decodes(step, st0, p, packed, d) ==> p.read(st) == taken && p.made(st) == |handed| <= |d| && handed == d[..|handed|]
  }

  /** Nothing can be wrong with the packed stream: it is all there, readable, and decodes to as many bytes as declared. */
  ghost predicate SoundStream<S(!new)>(step: LzmaStep<S>, st0: S, p: Progress<S>, look: (nat, nat) -> Option<nat>, packed: seq<byte>, d: seq<byte>, inSize: nat, outSize: nat) {
    && Decodes(step, st0, p, packed, d) && Advances(step, p, packed, d)
    && Readable(look, packed) && inSize == |packed| && outSize == |d|
  }

  /** The emit stage turned down what it was handed, and would whatever followed. */
  ghost predicate TurnedDown<T(!new)>(e: Branch<T>, given: seq<byte>, handed: seq<byte>)
    requires JobOk(e.sp.job)
  {
    Resumable(e.conv) && Hopeless(e.sp.job, given) && forall more :: given <= Whole(e.conv, e.st0, e.pc0, handed + more)
  }

  /** What a call produced goes into the window, and from there to the emit stage. */
  method Hand<T(!new)>(dic: array<byte>, at: nat, produced: seq<byte>, e: Branch<T>, spans: seq<seq<byte>>, ghost given0: seq<byte>, ghost base: map<nat, seq<byte>>)
    returns (code: int, after: seq<seq<byte>>, ghost given: seq<byte>)
    requires e.Valid(Concat(spans), given0, base) && at + |produced| <= dic.Length && dic != e.scratch
    modifies dic, e, e.sp, e.scratch
    ensures JobOk(e.sp.job) && Concat(after) == Concat(spans) + produced
    ensures if code == SZ_OK then e.Valid(Concat(after), given, base) else TurnedDown(e, given, Concat(after))
  {
    hide Branch.Valid, Concat, Resumable, Hopeless, JobOk, Whole;
    KeepWindow(dic, at, produced, e, Concat(spans), given0, base);
    var span := dic[at..at + |produced|];
    ConcatOne(spans, span);
    after := spans + [span];
    code, given := e.Emit(span, Concat(spans), given0, base);
  }

  /** Writing the window leaves the emit stage alone. */
  method KeepWindow<T(!new)>(dic: array<byte>, at: nat, produced: seq<byte>, e: Branch<T>, ghost fed: seq<byte>, ghost given: seq<byte>, ghost base: map<nat, seq<byte>>)
    requires e.Valid(fed, given, base) && at + |produced| <= dic.Length && dic != e.scratch
    modifies dic
    ensures dic[at..at + |produced|] == produced && e.Valid(fed, given, base)
  {
    hide *;
    Produce(dic, at, produced);
  }

  /**
   `lzma_pump`: decode into the circular window, hand every produced span to the
   emit stage, wrap at the window's end. It ends for every decoder that keeps its
   contract, never hands on more than the declared size, and succeeds only with
   exactly that much taken by the stage and the packed stream used up. With a
   decoder of `d` what it hands on is the front of `d`, and on a sound stream
   nothing but the emit stage can make it fail. The window limit already keeps a
   span within the declared size, so the source's later check for a span that
   exceeds it has no case left.
   */
  method Pump<S(!new), T(!new)>(step: LzmaStep<S>, st0: S, look: (nat, nat) -> Option<nat>, packed: seq<byte>, inSize: nat, outSize: nat, window: nat,
                                e: Branch<T>, ghost base: map<nat, seq<byte>>, ghost p: Progress<S>, ghost d: seq<byte>)
    returns (code: int, spans: seq<seq<byte>>, taken: nat, ghost given: seq<byte>)
    requires KeepsContract(step) && Looks(look, packed) && window > 0
    requires e.Valid([], [], base)
    modifies e, e.sp, e.scratch
    ensures JobOk(e.sp.job) && |Concat(spans)| <= outSize
    ensures code == SZ_OK ==> |Concat(spans)| == outSize && taken == inSize && e.Valid(Concat(spans), given, base)
    ensures Decodes(step, st0, p, packed, d) ==> Concat(spans) <= d
    ensures code != SZ_OK && SoundStream(step, st0, p, look, packed, d, inSize, outSize) ==> TurnedDown(e, given, Concat(spans))
  {
    hide KeepsContract, Looks, Readable, Decodes, Advances, Resumable, Whole, Concat, Hopeless, JobOk, TurnedDown, Carries, Tail, Open, CrcUpdate;
    hide Branch.Valid, InStep, SoundStream;
    var dic := new byte[window](_ => 0);
    var st := st0;
    var dicPos: nat, inLeft: nat, outLeft: nat := 0, inSize, outSize;
    spans, taken, given := [], 0, [];
    PumpStarts(step, st0, p, packed, d);
    StageJob(e, [], [], base);
    while true
      invariant dicPos < window == dic.Length && fresh(dic) && taken + inLeft == inSize && |Concat(spans)| + outLeft == outSize && taken <= |packed|
      invariant InStep(step, st0, p, packed, d, st, taken, Concat(spans))
      invariant JobOk(e.sp.job) && e.Valid(Concat(spans), given, base)
      decreases inLeft + outLeft
    {
      var want: nat := if inLeft < CHUNK then inLeft else CHUNK;
      var finish := outLeft < window - dicPos;
      var limit: nat := if finish then dicPos + outLeft else window;
      InStepFront(step, st0, p, packed, d, st, taken, Concat(spans));
      CallMoves(step, st0, p, look, packed, d, inSize, outSize, st, want, limit - dicPos, finish, taken, Concat(spans));
      if look(taken, want).None? {
        return SZ_ERROR_READ, spans, taken, given;
      }
      var input := packed[taken..taken + look(taken, want).value];
      var c := step(st, input, limit - dicPos, finish);
      CallWithin(step, st, input, limit - dicPos, finish);
      CallGoesOn(step, st0, p, packed, d, st, input, limit - dicPos, finish, taken, Concat(spans));
      inLeft := inLeft - c.consumed;
      taken := taken + c.consumed;
      st := c.state;
      if c.res != SZ_OK {
        return c.res, spans, taken, given;
      }
      if c.produced != [] {
        code, spans, given := Hand(dic, dicPos, c.produced, e, spans, given, base);
        if code != SZ_OK {
          return;
        }
        dicPos := dicPos + |c.produced|;
        outLeft := outLeft - |c.produced|;
      }
      if dicPos == window {
        dicPos := 0;
      }
      if c.mark {
        return if outLeft == 0 && inLeft == 0 then SZ_OK else SZ_ERROR_DATA, spans, taken, given;
      }
      if outLeft == 0 && inLeft == 0 {
        return SZ_OK, spans, taken, given;
      }
      if c.consumed == 0 && c.produced == [] {
        return SZ_ERROR_DATA, spans, taken, given;
      }
    }
  }

  lemma InStepFront<S(!new)>(step: LzmaStep<S>, st0: S, p: Progress<S>, packed: seq<byte>, d: seq<byte>, st: S, taken: nat, handed: seq<byte>)
    requires InStep(step, st0, p, packed, d, st, taken, handed)
    ensures Decodes(step, st0, p, packed, d) ==> handed <= d
  {
  }

  lemma StageJob<T(!new)>(e: Branch<T>, fed: seq<byte>, given: seq<byte>, base: map<nat, seq<byte>>)
    requires e.Valid(fed, given, base)
    ensures JobOk(e.sp.job)
  {
  }

  lemma PumpStarts<S(!new)>(step: LzmaStep<S>, st0: S, p: Progress<S>, packed: seq<byte>, d: seq<byte>)
    ensures Concat([]) == [] && InStep(step, st0, p, packed, d, st0, 0, [])
  {
  }

  lemma LookWithin(look: (nat, nat) -> Option<nat>, packed: seq<byte>, at: nat, want: nat)
    requires Looks(look, packed) && at <= |packed|
    ensures look(at, want).Some? ==> look(at, want).value <= want && at + look(at, want).value <= |packed|
  {
    assert LookOk(look, packed, at, want);
  }

  lemma CallWithin<S(!new)>(step: LzmaStep<S>, st: S, input: seq<byte>, room: nat, finish: bool)
    requires KeepsContract(step)
    ensures step(st, input, room, finish).consumed <= |input| && |step(st, input, room, finish).produced| <= room
  {
    assert CallOk(step, st, input, room, finish);
  }

  /** One call of a decoder of `d` goes on in `d`. */
  lemma CallGoesOn<S(!new)>(step: LzmaStep<S>, st0: S, p: Progress<S>, packed: seq<byte>, d: seq<byte>, st: S, input: seq<byte>, room: nat, finish: bool,
                            taken: nat, handed: seq<byte>)
    requires InStep(step, st0, p, packed, d, st, taken, handed) && taken <= |packed| && input <= packed[taken..]
    ensures var c := step(st, input, room, finish);
            && (c.produced == [] ==> handed + c.produced == handed)
            && (c.res == SZ_OK ==> InStep(step, st0, p, packed, d, c.state, taken + c.consumed, handed + c.produced))
            && (c.res == SZ_OK && Decodes(step, st0, p, packed, d) ==> handed + c.produced <= d)
  {
    if Decodes(step, st0, p, packed, d) {
      assert CallDecodes(step, p, packed, d, st, input, room, finish);
      var c := step(st, input, room, finish);
      if c.res == SZ_OK {
        assert d[..|handed|] + c.produced == d[..|handed| + |c.produced|];
      }
    }
  }

  /** On a sound stream a call neither fails nor stops short. */
  lemma CallMoves<S(!new)>(step: LzmaStep<S>, st0: S, p: Progress<S>, look: (nat, nat) -> Option<nat>, packed: seq<byte>, d: seq<byte>,
                           inSize: nat, outSize: nat, st: S, want: nat, room: nat, finish: bool, taken: nat, handed: seq<byte>)
    requires InStep(step, st0, p, packed, d, st, taken, handed) && taken <= |packed| && Looks(look, packed)
    requires taken < inSize ==> want > 0
    requires |handed| < outSize ==> room > 0
    ensures look(taken, want).Some? ==> look(taken, want).value <= want && taken + look(taken, want).value <= |packed|
    ensures SoundStream(step, st0, p, look, packed, d, inSize, outSize) ==>
              look(taken, want).Some? &&
              var c := step(st, packed[taken..taken + look(taken, want).value], room, finish);
              && c.res == SZ_OK
              && (c.mark ==> taken + c.consumed == inSize && |handed| + |c.produced| == outSize)
              && (taken < inSize || |handed| < outSize ==> c.consumed > 0 || c.produced != [])
  {
    LookWithin(look, packed, taken, want);
    if SoundStream(step, st0, p, look, packed, d, inSize, outSize) {
      assert Shows(look, packed, taken, want);
      var input := packed[taken..taken + look(taken, want).value];
      assert CallAdvances(step, p, packed, d, st, input, room, finish);
      assert CallDecodes(step, p, packed, d, st, input, room, finish);
    }
  }

  /**
   The whole way of a filtered folder, from its packed stream through decoder,
   window, filter and splitter into the sinks. Success means that what was decoded,
   exactly as much as declared, converts to a stream the job accepts, and the sinks
   hold its members; that stream is `d` for a decoder of `d`. On a sound stream
   success depends on nothing else.
   */
  method RunPacked<S(!new), T(!new)>(step: LzmaStep<S>, st0: S, look: (nat, nat) -> Option<nat>, packed: seq<byte>, inSize: nat, outSize: nat, window: nat,
                                     conv: Converter<T>, filter: T, pc: nat, j: Job, folderCrc: Option<bv32>, sinks: map<nat, seq<byte>>,
                                     ghost p: Progress<S>, ghost d: seq<byte>)
    returns (code: int, after: map<nat, seq<byte>>, ghost decoded: seq<byte>)
    requires KeepsContract(step) && Looks(look, packed) && window > 0
    requires Resumable(conv) && pc < TWO_32 && JobOk(j)
    ensures code == SZ_OK ==> |decoded| == outSize && Accepts(j, folderCrc, Whole(conv, filter, pc, decoded))
    ensures code == SZ_OK ==> Delivered(j, Whole(conv, filter, pc, decoded), sinks, after)
    ensures Decodes(step, st0, p, packed, d) ==> decoded <= d
    ensures SoundStream(step, st0, p, look, packed, d, inSize, outSize) ==> (code == SZ_OK <==> Accepts(j, folderCrc, Whole(conv, filter, pc, d)))
  {
    hide KeepsContract, Looks, Readable, Decodes, Advances, Hopeless, JobOk, Resumable, Whole, Concat, Accepts, Delivered, Carries, Tail, Open, CrcUpdate;
    var sp := new Split(j, sinks);
    var e := new Branch(conv, filter, pc, sp, sinks);
    var spans, taken;
    ghost var given;
    code, spans, taken, given := Pump(step, st0, look, packed, inSize, outSize, window, e, sinks, p, d);
    decoded := Concat(spans);
    if code != SZ_OK {
      if SoundStream(step, st0, p, look, packed, d, inSize, outSize) {
        assert decoded + d[|decoded|..] == d;
        GivenHopeless(j, folderCrc, given, Whole(conv, filter, pc, decoded + d[|decoded|..]));
      }
      return code, sp.sinks, decoded;
    }
    assert decoded <= d && |decoded| == |d| ==> decoded == d;
    code := e.Finish(decoded, given, sinks);
    if code != SZ_OK {
      GivenHopeless(j, folderCrc, Whole(conv, filter, pc, decoded), Whole(conv, filter, pc, decoded));
      return code, sp.sinks, decoded;
    }
    code := sp.Finish(folderCrc, Whole(conv, filter, pc, decoded), sinks);
    after := sp.sinks;
  }

  /** A folder without a filter: the stage that converts everything as it is. */
  lemma PlainIsWhole(s: seq<byte>, pc: nat)
    ensures var plain := (st: (), b: seq<byte>, pc: nat) => (b, st);
            Resumable(plain) && Whole(plain, (), pc, s) == s
  {
    var plain := (st: (), b: seq<byte>, pc: nat) => (b, st);
    forall st: (), b: seq<byte>, more: seq<byte>, pc: nat ensures ResumesAt(plain, st, b, more, pc) && ShortTail(plain, st, b, pc) {
      assert b + (b[|b|..] + more) == b + more;
    }
    assert Resumable(plain);
    assert s + s[|s|..] == s;
  }
}
