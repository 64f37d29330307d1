/** The pack store under concurrency: readers that look up, compute and store in separate steps,
    cache evictions, and writers that change release rows and then bump the counter they loaded. */
module PackStoreProtocol {
  import opened Wrappers
  import opened Text
  import opened PackStore

  /** Where a reader stands inside `Rails.cache.fetch`; `bust` is the counter its tenant was loaded with. */
  datatype Reader =
    | Asking(request: Request, bust: nat)
    | Missed(request: Request, bust: nat)
    | Computed(request: Request, bust: nat, value: Option<Record>)

  /** Each writer under way holds the counter its tenant object was last loaded with. */
  datatype State = State(rs: Releases, bust: nat, writers: map<nat, nat>, cache: Cache, readers: map<nat, Reader>)

  predicate Writing(s: State) { s.writers != map[] }

  datatype Step =
    | BeginWrite(writer: nat, loaded: nat)
    | Reload(writer: nat)
    | WriteRows(writer: nat, rs: Releases)
    | Bump(writer: nat)
    | Ask(reader: nat, request: Request, bust: nat)
    | LookUp(reader: nat)
    | Compute(reader: nat)
    | Store(reader: nat)
    | Evict(key: string)

  datatype Config = Config(sys: System, tenantId: nat)

  function KeyOf(c: Config, r: Reader): string { PackKey(c.tenantId, r.request, r.bust) }

  predicate Enabled(c: Config, s: State, step: Step) {
    match step
    case BeginWrite(w, loaded) => w !in s.writers && loaded <= s.bust
    case Reload(w) => w in s.writers
    case WriteRows(w, _) => w in s.writers
    case Bump(w) => w in s.writers
    case Ask(id, request, bust) => id !in s.readers && bust <= s.bust && !Blank(request.key)
    case LookUp(id) => id in s.readers && s.readers[id].Asking?
    case Compute(id) => id in s.readers && s.readers[id].Missed?
    case Store(id) => id in s.readers && s.readers[id].Computed?
    case Evict(key) => true
  }

  function Apply(c: Config, s: State, step: Step): State
    requires Enabled(c, s, step)
  {
    match step
    case BeginWrite(w, loaded) => s.(writers := s.writers[w := loaded])
    case Reload(w) => s.(writers := s.writers[w := s.bust])
    case WriteRows(w, rs) => s.(rs := rs)
    case Bump(w) => s.(bust := s.writers[w] + 1, writers := s.writers - {w})
    case Ask(id, request, bust) => s.(readers := s.readers[id := Asking(request, bust)])
    case LookUp(id) =>
      var r := s.readers[id];
      if KeyOf(c, r) in s.cache then s.(readers := s.readers - {id})
      else s.(readers := s.readers[id := Missed(r.request, r.bust)])
    case Compute(id) =>
      var r := s.readers[id];
      s.(readers := s.readers[id := Computed(r.request, r.bust, FetchUncached(c.sys, s.rs, r.request))])
    case Store(id) =>
      var r := s.readers[id];
      s.(readers := s.readers - {id}, cache := s.cache[KeyOf(c, r) := Entry(r.value, r.request, r.bust)])
    case Evict(key) => s.(cache := s.cache - {key})
  }

  function Initial(rs: Releases, bust: nat): State { State(rs, bust, map[], map[], map[]) }

  ghost predicate Run(c: Config, s: State, steps: seq<Step>, t: State)
    decreases |steps|
  {
    if steps == [] then s == t
    else Enabled(c, s, steps[0]) && Run(c, Apply(c, s, steps[0]), steps[1..], t)
  }

  /** A bump counts when the counter it adds one to is still the current one. */
  predicate Counts(s: State, step: Step) { step.Bump? && step.writer in s.writers ==> s.writers[step.writer] == s.bust }

  /** A run all of whose bumps count. */
  ghost predicate CountedRun(c: Config, s: State, steps: seq<Step>, t: State)
    decreases |steps|
  {
    if steps == [] then s == t
    else Enabled(c, s, steps[0]) && Counts(s, steps[0]) && CountedRun(c, Apply(c, s, steps[0]), steps[1..], t)
  }

  /** One writer at a time, starting from an up-to-date tenant. */
  predicate Serial(s: State, step: Step) { step.BeginWrite? ==> !Writing(s) && step.loaded == s.bust }

  ghost predicate SerialRun(c: Config, s: State, steps: seq<Step>, t: State)
    decreases |steps|
  {
    if steps == [] then s == t
    else Enabled(c, s, steps[0]) && Serial(s, steps[0]) && SerialRun(c, Apply(c, s, steps[0]), steps[1..], t)
  }

  predicate OneCurrentWriter(s: State) {
    && (forall w | w in s.writers :: s.writers[w] == s.bust)
    && (forall v, w | v in s.writers && w in s.writers :: v == w)
  }

  lemma SerialStep(c: Config, s: State, step: Step)
    requires OneCurrentWriter(s) && Enabled(c, s, step) && Serial(s, step)
    ensures Counts(s, step) && OneCurrentWriter(Apply(c, s, step))
  {
    hide FetchUncached, PackKey, Blank;
    var t := Apply(c, s, step);
    assert step.BeginWrite? ==> s.writers.Keys == {} && t.writers.Keys == {step.writer};
  }

  /** Up-to-date writers that take turns only make bumps that count. */
  lemma {:induction false} SerialRunsCount(c: Config, s: State, steps: seq<Step>, t: State)
    requires OneCurrentWriter(s) && SerialRun(c, s, steps, t)
    ensures CountedRun(c, s, steps, t)
    decreases |steps|
  {
    if steps != [] {
      SerialStep(c, s, steps[0]);
      SerialRunsCount(c, Apply(c, s, steps[0]), steps[1..], t);
    }
  }

  /** A reader that will file its value under the current counter carries the current answer. */
  predicate ReadersFresh(c: Config, s: State) {
    forall id | id in s.readers && s.readers[id].Computed? && s.readers[id].bust == s.bust ::
      s.readers[id].value == FetchUncached(c.sys, s.rs, s.readers[id].request)
  }

  /** Nothing is filed, or about to be filed, under a counter that is still to come. */
  predicate Bounded(c: Config, s: State) {
    && (forall id | id in s.readers :: s.readers[id].bust <= s.bust)
    && (forall k | k in s.cache ::
          k == PackKey(c.tenantId, s.cache[k].request, s.cache[k].bust) && s.cache[k].bust <= s.bust)
  }

  predicate Inv(c: Config, s: State) {
    && Bounded(c, s)
    && (!Writing(s) ==> Fresh(c.sys, c.tenantId, s.rs, s.bust, s.cache) && ReadersFresh(c, s))
  }

  lemma StepKeepsInv(c: Config, s: State, step: Step)
    requires Inv(c, s) && Enabled(c, s, step) && Counts(s, step)
    ensures Inv(c, Apply(c, s, step))
  {
    hide FetchUncached, PackKey, Blank;
    if step.BeginWrite? || step.Reload? {
      assert step.writer in Apply(c, s, step).writers;
    }
  }

  lemma {:induction false} RunKeepsInv(c: Config, s: State, steps: seq<Step>, t: State)
    requires Inv(c, s) && CountedRun(c, s, steps, t)
    ensures Inv(c, t)
    decreases |steps|
  {
    if steps != [] {
      StepKeepsInv(c, s, steps[0]);
      RunKeepsInv(c, Apply(c, s, steps[0]), steps[1..], t);
    }
  }

  /** Whenever no writer is mid-operation, whatever the interleaving so far: every entry under the
      current counter equals an uncached lookup, and so does the answer of any reader that hits. */
  lemma {:induction false} EntriesCurrentBetweenWrites(c: Config, rs: Releases, bust: nat, steps: seq<Step>, s: State)
    requires CountedRun(c, Initial(rs, bust), steps, s) && !Writing(s)
    ensures Fresh(c.sys, c.tenantId, s.rs, s.bust, s.cache)
    ensures forall id | id in s.readers && s.readers[id].bust == s.bust && KeyOf(c, s.readers[id]) in s.cache ::
              exists r: Request ::
                && PackKey(c.tenantId, r, s.bust) == KeyOf(c, s.readers[id])
                && s.cache[KeyOf(c, s.readers[id])].value == FetchUncached(c.sys, s.rs, r)
  {
    RunKeepsInv(c, Initial(rs, bust), steps, s);
    hide FetchUncached, PackKey;
    forall id | id in s.readers && s.readers[id].bust == s.bust && KeyOf(c, s.readers[id]) in s.cache
      ensures exists r: Request ::
                && PackKey(c.tenantId, r, s.bust) == KeyOf(c, s.readers[id])
                && s.cache[KeyOf(c, s.readers[id])].value == FetchUncached(c.sys, s.rs, r)
    {
      var e := s.cache[KeyOf(c, s.readers[id])];
      PackKeyCollisions(c.tenantId, e.request, e.bust, c.tenantId, s.readers[id].request, s.readers[id].bust);
      assert PackKey(c.tenantId, e.request, s.bust) == KeyOf(c, s.readers[id]);
    }
  }

  predicate PlainSteps(steps: seq<Step>) { forall i | 0 <= i < |steps| && steps[i].Ask? :: Plain(steps[i].request) }

  predicate PlainState(s: State) {
    PlainCache(s.cache) && forall id | id in s.readers :: Plain(s.readers[id].request)
  }

  lemma StepKeepsPlain(c: Config, s: State, step: Step)
    requires PlainState(s) && Enabled(c, s, step) && (step.Ask? ==> Plain(step.request))
    ensures PlainState(Apply(c, s, step))
  {
    hide FetchUncached, PackKey, Plain, Blank;
  }

  lemma {:induction false} RunKeepsPlain(c: Config, s: State, steps: seq<Step>, t: State)
    requires PlainState(s) && PlainSteps(steps) && CountedRun(c, s, steps, t)
    ensures PlainState(t)
    decreases |steps|
  {
    if steps != [] {
      assert PlainSteps(steps[1..]);
      StepKeepsPlain(c, s, steps[0]);
      hide PlainState, Apply, PlainSteps;
      RunKeepsPlain(c, Apply(c, s, steps[0]), steps[1..], t);
    }
  }

  /** After any run whose requests are plain and whose bumps count, between writes, `fetch` with an
      up-to-date tenant gives exactly the uncached answer, cached or not. */
  lemma FetchIsUncached(c: Config, rs: Releases, bust: nat, steps: seq<Step>, s: State, req: Request)
    requires CountedRun(c, Initial(rs, bust), steps, s) && !Writing(s) && PlainSteps(steps)
    requires Plain(req) && !Blank(req.key)
    ensures Fetch(c.sys, c.tenantId, s.rs, s.bust, s.cache, req).0 == FetchUncached(c.sys, s.rs, req)
  {
    RunKeepsInv(c, Initial(rs, bust), steps, s);
    RunKeepsPlain(c, Initial(rs, bust), steps, s);
    FetchFresh(c.sys, c.tenantId, s.rs, s.bust, s.cache, req);
  }

  /** A writer that loads the current counter and is not overtaken makes a bump that counts. */
  lemma OneWriteRuns(c: Config, s: State, writer: nat, rs: Releases)
    requires writer !in s.writers
    ensures CountedRun(c, s, [BeginWrite(writer, s.bust), WriteRows(writer, rs), Bump(writer)],
        s.(rs := rs, bust := s.bust + 1))
  {
    hide FetchUncached, PackKey, Blank;
    var begin, write, bump := BeginWrite(writer, s.bust), WriteRows(writer, rs), Bump(writer);
    assert [begin, write, bump][1..] == [write, bump] && [write, bump][1..] == [bump] && [bump][1..] == [];
    var s1 := Apply(c, s, begin);
    var s2, t := Apply(c, s1, write), s.(rs := rs, bust := s.bust + 1);
    assert s2.writers - {writer} == s.writers;
    assert CountedRun(c, s2, [bump], t);
    assert CountedRun(c, s1, [write, bump], t);
  }

  lemma {:induction false} RunOneMore(c: Config, s: State, steps: seq<Step>, t: State, step: Step)
    requires Run(c, s, steps, t) && Enabled(c, t, step)
    ensures Run(c, s, steps + [step], Apply(c, t, step))
    decreases |steps|
  {
    if steps == [] {
      assert [step][1..] == [] && steps + [step] == [step];
    } else {
      assert (steps + [step])[1..] == steps[1..] + [step];
      RunOneMore(c, Apply(c, s, steps[0]), steps[1..], t, step);
    }
  }

  /** Two writers load the same counter. The first changes the rows to `rs1` and bumps, a reader caches
      what it finds, and the second changes the rows to `rs2` and bumps to the same counter again. */
  function OverlappingWriters(rs1: Releases, rs2: Releases, bust: nat, req: Request): seq<Step> {
    [BeginWrite(0, bust), BeginWrite(1, bust), WriteRows(0, rs1), Bump(0)]
    + [Ask(0, req, bust + 1), LookUp(0), Compute(0), Store(0)]
    + [WriteRows(1, rs2), Bump(1)]
  }

  lemma FirstWriterDone(c: Config, rs0: Releases, rs1: Releases, bust: nat)
    ensures
      var steps := [BeginWrite(0, bust), BeginWrite(1, bust), WriteRows(0, rs1), Bump(0)];
      Run(c, Initial(rs0, bust), steps, State(rs1, bust + 1, map[1 := bust], map[], map[]))
  {
    hide FetchUncached, PackKey, Run;
    var s0, a, b, write, bump :=
        Initial(rs0, bust), BeginWrite(0, bust), BeginWrite(1, bust), WriteRows(0, rs1), Bump(0);
    RunNothing(c, s0);
    RunOneMore(c, s0, [], s0, a);
    assert [] + [a] == [a] && [a] + [b] == [a, b];
    var s1 := Apply(c, s0, a);
    RunOneMore(c, s0, [a], s1, b);
    var s2 := Apply(c, s1, b);
    RunOneMore(c, s0, [a, b], s2, write);
    assert [a, b] + [write] == [a, b, write] && [a, b, write] + [bump] == [a, b, write, bump];
    var s3 := Apply(c, s2, write);
    RunOneMore(c, s0, [a, b, write], s3, bump);
    assert s3.writers - {0} == map[1 := bust];
  }

  lemma RunNothing(c: Config, s: State)
    ensures Run(c, s, [], s)
  {
  }

  lemma ReaderDone(c: Config, s: State, start: State, steps: seq<Step>, req: Request)
    requires Run(c, start, steps, s) && !Blank(req.key) && s.readers == map[] && s.cache == map[]
    ensures
      var key, value := PackKey(c.tenantId, req, s.bust), FetchUncached(c.sys, s.rs, req);
      Run(c, start, steps + [Ask(0, req, s.bust), LookUp(0), Compute(0), Store(0)],
        s.(cache := map[key := Entry(value, req, s.bust)]))
  {
    hide FetchUncached, PackKey, Run, Blank;
    var ask := Ask(0, req, s.bust);
    RunOneMore(c, start, steps, s, ask);
    var s1 := Apply(c, s, ask);
    RunOneMore(c, start, steps + [ask], s1, LookUp(0));
    var s2 := Apply(c, s1, LookUp(0));
    RunOneMore(c, start, steps + [ask] + [LookUp(0)], s2, Compute(0));
    var s3 := Apply(c, s2, Compute(0));
    RunOneMore(c, start, steps + [ask] + [LookUp(0)] + [Compute(0)], s3, Store(0));
    assert steps + [ask] + [LookUp(0)] + [Compute(0)] + [Store(0)] == steps + [ask, LookUp(0), Compute(0), Store(0)];
    assert s3.readers - {0} == map[];
  }

  lemma SecondWriterDone(c: Config, s: State, start: State, steps: seq<Step>, rs: Releases)
    requires Run(c, start, steps, s) && s.writers.Keys == {1}
    ensures Run(c, start, steps + [WriteRows(1, rs), Bump(1)], s.(rs := rs, bust := s.writers[1] + 1, writers := map[]))
  {
    hide FetchUncached, PackKey, Run, Blank;
    var write, bump := WriteRows(1, rs), Bump(1);
    RunOneMore(c, start, steps, s, write);
    var s1 := Apply(c, s, write);
    RunOneMore(c, start, steps + [write], s1, bump);
    assert steps + [write] + [bump] == steps + [write, bump];
    assert s1.writers - {1} == map[];
  }

  /** The state the overlapping writers leave. */
  function Overlapped(c: Config, rs1: Releases, rs2: Releases, bust: nat, req: Request): State {
    var entry := Entry(FetchUncached(c.sys, rs1, req), req, bust + 1);
    State(rs2, bust + 1, map[], map[PackKey(c.tenantId, req, bust + 1) := entry], map[])
  }

  lemma OverlappingRun(c: Config, rs0: Releases, rs1: Releases, rs2: Releases, bust: nat, req: Request)
    requires !Blank(req.key)
    ensures Run(c, Initial(rs0, bust), OverlappingWriters(rs1, rs2, bust, req), Overlapped(c, rs1, rs2, bust, req))
  {
    hide FetchUncached, PackKey, Run, Blank;
    var start, first := Initial(rs0, bust), [BeginWrite(0, bust), BeginWrite(1, bust), WriteRows(0, rs1), Bump(0)];
    var s1 := State(rs1, bust + 1, map[1 := bust], map[], map[]);
    FirstWriterDone(c, rs0, rs1, bust);
    ReaderDone(c, s1, start, first, req);
    var key, value := PackKey(c.tenantId, req, bust + 1), FetchUncached(c.sys, rs1, req);
    var s2 := s1.(cache := map[key := Entry(value, req, bust + 1)]);
    SecondWriterDone(c, s2, start, first + [Ask(0, req, bust + 1), LookUp(0), Compute(0), Store(0)], rs2);
  }

  /** The bumps must count. In a run of two overlapping writers both bump to the same counter, and
      afterwards, with no writer under way, the first one's answer is served for the second one's rows. */
  lemma OverlappingWritersLoseABump(c: Config, rs0: Releases, rs1: Releases, rs2: Releases, bust: nat, req: Request)
    requires !Blank(req.key) && FetchUncached(c.sys, rs1, req) != FetchUncached(c.sys, rs2, req)
    ensures
      var s := Overlapped(c, rs1, rs2, bust, req);
      && Run(c, Initial(rs0, bust), OverlappingWriters(rs1, rs2, bust, req), s)
      && !Writing(s) && s.rs == rs2 && !Fresh(c.sys, c.tenantId, s.rs, s.bust, s.cache)
      && Fetch(c.sys, c.tenantId, s.rs, s.bust, s.cache, req).0 != FetchUncached(c.sys, s.rs, req)
  {
    OverlappingRun(c, rs0, rs1, rs2, bust, req);
    hide FetchUncached, PackKey, Run, Blank, OverlappingWriters;
    var s := Overlapped(c, rs1, rs2, bust, req);
    assert PackKey(c.tenantId, req, bust + 1) in s.cache;
  }
}
