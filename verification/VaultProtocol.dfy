// The vault file under several processes: each step of each process is atomic,
// and the steps of different processes come in any order.
module VaultProtocol {
  import opened Wrappers

  type Process = nat

  // What the file system says of one version of the file.
  datatype Stamp = Stamp(modTime: int, size: nat)

  datatype Document<S, A> = Document(secrets: map<string, S>, authorities: map<string, A>)

  datatype Update<S, A> = Put(name: string, secret: S) | Delete(name: string) | SetAuthority(host: string, authority: A)

  function Apply<S, A>(document: Document<S, A>, update: Update<S, A>): Document<S, A> {
    match update
    case Put(name, secret) => document.(secrets := document.secrets[name := secret])
    case Delete(name) => document.(secrets := document.secrets - {name})
    case SetAuthority(host, authority) => document.(authorities := document.authorities[host := authority])
  }

  // All updates of a log, in order.
  function Replay<S, A>(document: Document<S, A>, log: seq<Update<S, A>>): Document<S, A> {
    if log == [] then document else Apply(Replay(document, log[..|log| - 1]), log[|log| - 1])
  }

  // A secret is what the last update of its name made of it: the last one put, or
  // nothing when it was deleted. Updates of other names and of authorities do not
  // touch it.
  lemma {:induction false} LastOfName<S, A>(document: Document<S, A>, log: seq<Update<S, A>>, name: string, i: nat)
    requires i <= |log|
    requires forall j :: i <= j < |log| ==> log[j].SetAuthority? || log[j].name != name
    ensures var secrets := Replay(document, log).secrets;
            if i == 0 then
              (name in secrets <==> name in document.secrets)
              && (name in secrets ==> secrets[name] == document.secrets[name])
            else
              && (forall secret :: log[i - 1] == Put(name, secret) ==> name in secrets && secrets[name] == secret)
              && (log[i - 1] == Delete(name) ==> name !in secrets)
    decreases |log|
  {
    if i < |log| {
      LastOfName(document, log[..|log| - 1], name, i);
    }
  }

  // An authority is the last one that was set for its host, and updates of secrets
  // and of other hosts do not touch it.
  lemma {:induction false} LastOfHost<S, A>(document: Document<S, A>, log: seq<Update<S, A>>, host: string, i: nat)
    requires i <= |log|
    requires forall j :: i <= j < |log| ==> log[j].SetAuthority? ==> log[j].host != host
    ensures var authorities := Replay(document, log).authorities;
            if i == 0 then
              (host in authorities <==> host in document.authorities)
              && (host in authorities ==> authorities[host] == document.authorities[host])
            else
              forall authority :: log[i - 1] == SetAuthority(host, authority) ==>
                host in authorities && authorities[host] == authority
    decreases |log|
  {
    if i < |log| {
      LastOfHost(document, log[..|log| - 1], host, i);
    }
  }

  datatype Version<S, A> = Version(stamp: Stamp, document: Document<S, A>)

  function Empty<S, A>(): Document<S, A> {
    Document(map[], map[])
  }

  // Where a process stands. A writer locks, loads, writes and unlocks; a reader
  // compares the stamp of its cache and then may have to load. A process that
  // creates the file has seen that there is none, and takes no lock. The log of a
  // loaded document says which updates are in it.
  datatype Phase<S, A> =
    | Idle
    | Locked
    | Loaded(document: Document<S, A>, log: seq<Update<S, A>>)
    | Written
    | Reading
    | Creating

  // The log says which updates are in the file.
  datatype State<S, A> = State(
    file: Option<Version<S, A>>,
    versions: seq<Version<S, A>>,
    holder: Option<Process>,
    phases: map<Process, Phase<S, A>>,
    caches: map<Process, Version<S, A>>,
    log: seq<Update<S, A>>)

  datatype Step<S, A> =
    | Acquire(process: Process)
    | Load(process: Process)
    | Write(process: Process, update: Update<S, A>, stamp: Stamp)
    | Release(process: Process)
    | ReadStat(process: Process)
    | ReadLoad(process: Process)
    | CreateCheck(process: Process)
    | CreateWrite(process: Process, stamp: Stamp)

  function PhaseOf<S, A>(s: State<S, A>, p: Process): Phase<S, A> {
    if p in s.phases then s.phases[p] else Idle
  }

  // A process can take the step now.
  predicate Enabled<S(==), A(==)>(s: State<S, A>, step: Step<S, A>) {
    var phase := PhaseOf(s, step.process);
    match step
    case Acquire(_) => phase == Idle && s.holder == None
    case Load(_) => phase == Locked && s.file.Some?
    case Write(_, update, _) => phase.Loaded? && (update.Delete? ==> update.name in phase.document.secrets)
    case Release(_) => phase == Locked || phase.Loaded? || phase == Written
    case ReadStat(_) => phase == Idle
    case ReadLoad(_) => phase == Reading && s.file.Some?
    case CreateCheck(_) => phase == Idle && s.file.None?
    case CreateWrite(_, _) => phase == Creating
  }

  predicate Cached<S, A>(s: State<S, A>, p: Process) {
    p in s.caches && s.file.Some? && s.caches[p].stamp == s.file.value.stamp
  }

  function Next<S(==), A(==)>(s: State<S, A>, step: Step<S, A>): State<S, A>
    requires Enabled(s, step)
  {
    var p := step.process;
    match step
    case Acquire(_) => s.(holder := Some(p), phases := s.phases[p := Locked], caches := s.caches - {p})
    case Load(_) => s.(phases := s.phases[p := Loaded(s.file.value.document, s.log)],
                       caches := s.caches[p := s.file.value])
    case Write(_, update, stamp) =>
      var version := Version(stamp, Apply(PhaseOf(s, p).document, update));
      s.(file := Some(version), versions := s.versions + [version], phases := s.phases[p := Written],
         caches := s.caches[p := version], log := PhaseOf(s, p).log + [update])
    case Release(_) => s.(holder := None, phases := s.phases[p := Idle])
    case ReadStat(_) =>
      if Cached(s, p) then s
      else s.(phases := s.phases[p := if s.file.Some? then Reading else Idle], caches := s.caches - {p})
    case ReadLoad(_) => s.(phases := s.phases[p := Idle], caches := s.caches[p := s.file.value])
    case CreateCheck(_) => s.(phases := s.phases[p := Creating])
    case CreateWrite(_, stamp) =>
      var version := Version(stamp, Empty());
      s.(file := Some(version), versions := s.versions + [version], phases := s.phases[p := Idle],
         caches := s.caches[p := version], log := [])
  }

  // What a reader answers from when it is done with the step.
  function Answer<S, A>(s: State<S, A>, step: Step<S, A>): Option<Document<S, A>> {
    match step
    case ReadStat(p) => if Cached(s, p) then Some(s.caches[p].document) else None
    case ReadLoad(_) => if s.file.Some? then Some(s.file.value.document) else None
    case _ => None
  }

  ghost predicate HoldsLock<S, A>(phase: Phase<S, A>) {
    phase.Locked? || phase.Loaded? || phase.Written?
  }

  // At most one process is between locking and unlocking, the file and what was
  // loaded from it are the updates of their logs, and only an absent file is
  // ever created.
  ghost predicate Invariant<S, A>(s: State<S, A>, initial: Document<S, A>) {
    && (if s.file.Some? then s.versions != [] && s.versions[|s.versions| - 1] == s.file.value else s.versions == [])
    && (s.file.Some? ==> s.file.value.document == Replay(initial, s.log))
    && (s.file.None? ==> initial == Empty() && s.log == [])
    && (forall p: Process :: HoldsLock(PhaseOf(s, p)) ==> s.holder == Some(p))
    && (forall p: Process :: PhaseOf(s, p).Loaded? ==> PhaseOf(s, p).document == Replay(initial, PhaseOf(s, p).log))
    && (forall p: Process :: PhaseOf(s, p).Creating? ==> initial == Empty())
    && (forall p :: p in s.caches ==> s.caches[p] in s.versions)
  }

  // A step moves its own process only, and starts from its phase.
  lemma StepOfOne<S, A>(s: State<S, A>, step: Step<S, A>, p: Process)
    requires Enabled(s, step)
    ensures p != step.process ==> PhaseOf(Next(s, step), p) == PhaseOf(s, p)
    ensures PhaseOf(Next(s, step), step.process).Loaded? ==>
      step.Load? && PhaseOf(Next(s, step), step.process).log == s.log
    ensures step.Write? ==> HoldsLock(PhaseOf(s, step.process))
    ensures step.CreateWrite? ==> PhaseOf(s, step.process).Creating?
    ensures PhaseOf(Next(s, step), step.process).Creating? ==> s.file.None?
    ensures Next(s, step).file.None? ==> s.file.None?
    ensures step.Write? ==> Next(s, step).log == PhaseOf(s, step.process).log + [step.update]
    ensures !step.Write? ==> Next(s, step).log == if step.CreateWrite? then [] else s.log
  {
  }

  lemma StepKeepsInvariant<S, A>(s: State<S, A>, step: Step<S, A>, initial: Document<S, A>)
    requires Invariant(s, initial) && Enabled(s, step)
    ensures Invariant(Next(s, step), initial)
  {
    var s' := Next(s, step);
    if step.Write? {
      assert s'.log[..|s'.log| - 1] == PhaseOf(s, step.process).log;
    }
    assert forall p: Process :: p != step.process ==> PhaseOf(s', p) == PhaseOf(s, p);
    forall p | p in s'.caches
      ensures s'.caches[p] in s'.versions
    {
      assert p in s.caches ==> s.caches[p] in s.versions;
    }
  }

  // All steps can be taken, one after the other.
  predicate Runs<S(==), A(==)>(s: State<S, A>, steps: seq<Step<S, A>>)
    decreases |steps|, 0
  {
    steps == []
    || (Runs(s, steps[..|steps| - 1]) && Enabled(After(s, steps[..|steps| - 1]), steps[|steps| - 1]))
  }

  function After<S(==), A(==)>(s: State<S, A>, steps: seq<Step<S, A>>): State<S, A>
    requires Runs(s, steps)
    decreases |steps|, 1
  {
    if steps == [] then s else Next(After(s, steps[..|steps| - 1]), steps[|steps| - 1])
  }

  // The updates of the steps, in the order in which the lock was held.
  function UpdatesOf<S, A>(steps: seq<Step<S, A>>): seq<Update<S, A>> {
    if steps == [] then []
    else
      var last := steps[|steps| - 1];
      UpdatesOf(steps[..|steps| - 1]) + if last.Write? then [last.update] else []
  }

  // What the file holds before the first step.
  function Initial<S, A>(file: Option<Version<S, A>>): Document<S, A> {
    if file.Some? then file.value.document else Empty()
  }

  // A file, or none, that no process has opened yet.
  function Start<S, A>(file: Option<Version<S, A>>): State<S, A> {
    State(file, if file.Some? then [file.value] else [], None, map[], map[], [])
  }

  lemma {:induction false} RunKeepsInvariant<S, A>(file: Option<Version<S, A>>, steps: seq<Step<S, A>>)
    requires Runs(Start(file), steps)
    ensures Invariant(After(Start(file), steps), Initial(file))
    decreases |steps|
  {
    if steps == [] {
    } else {
      RunKeepsInvariant(file, steps[..|steps| - 1]);
      hide Invariant, Next;
      StepKeepsInvariant(After(Start(file), steps[..|steps| - 1]), steps[|steps| - 1], Initial(file));
    }
  }

  // The state after the first steps of a run.
  function At<S(==), A(==)>(s: State<S, A>, steps: seq<Step<S, A>>, n: nat): State<S, A>
    requires Runs(s, steps) && n <= |steps|
    ensures Runs(s, steps[..n])
  {
    RunsPrefix(s, steps, n);
    After(s, steps[..n])
  }

  lemma {:induction false} RunsPrefix<S, A>(s: State<S, A>, steps: seq<Step<S, A>>, n: nat)
    requires Runs(s, steps) && n <= |steps|
    ensures Runs(s, steps[..n])
    decreases |steps|
  {
    if n == |steps| {
      assert steps[..n] == steps;
    } else {
      assert steps[..|steps| - 1][..n] == steps[..n];
      RunsPrefix(s, steps[..|steps| - 1], n);
    }
  }

  // The step at w writes on top of what its process loaded at l.
  ghost predicate WritesLoad<S, A>(steps: seq<Step<S, A>>, l: nat, w: nat) {
    && l < w < |steps| && steps[w].Write? && steps[l] == Load(steps[w].process)
    && (forall k :: l < k < w ==> steps[k].process != steps[w].process)
  }

  // The step creates the file over one that has updates already, and no writer
  // that had loaded that one writes it back.
  ghost predicate Replaces<S, A>(steps: seq<Step<S, A>>, i: nat) {
    && i < |steps| && steps[i].CreateWrite? && UpdatesOf(steps[..i]) != []
    && (forall l: nat, w: nat :: l < i < w ==> !WritesLoad(steps, l, w))
  }

  lemma OneHolder<S, A>(s: State<S, A>, initial: Document<S, A>, p: Process, q: Process)
    requires Invariant(s, initial)
    ensures HoldsLock(PhaseOf(s, p)) && HoldsLock(PhaseOf(s, q)) ==> p == q
  {
  }

  // A run is a run and one step more.
  lemma LastStep<S, A>(s: State<S, A>, steps: seq<Step<S, A>>)
    requires Runs(s, steps) && steps != []
    ensures var before, last := steps[..|steps| - 1], steps[|steps| - 1];
            && Runs(s, before) && Enabled(After(s, before), last) && After(s, steps) == Next(After(s, before), last)
            && (!last.Write? ==> UpdatesOf(steps) == UpdatesOf(before))
  {
    hide Next, Enabled;
  }

  lemma NotYet<S, A>(file: Option<Version<S, A>>, p: Process)
    ensures Runs(Start(file), []) && !PhaseOf(After(Start(file), []), p).Loaded?
  {
  }

  // What a writer has loaded is the file as it was when the lock holder loaded
  // it, and no process has written an update since.
  lemma {:induction false} LoadedSince<S, A>(file: Option<Version<S, A>>, steps: seq<Step<S, A>>, p: Process)
      returns (l: nat)
    requires Runs(Start(file), steps) && PhaseOf(After(Start(file), steps), p).Loaded?
    ensures l < |steps| && steps[l] == Load(p)
    ensures forall k :: l < k < |steps| ==> steps[k].process != p && !steps[k].Write?
    ensures Runs(Start(file), steps[..l])
            && PhaseOf(After(Start(file), steps), p).log == After(Start(file), steps[..l]).log
    ensures UpdatesOf(steps) == UpdatesOf(steps[..l])
    decreases |steps|
  {
    hide Next, Enabled, Invariant, PhaseOf, After, Start, UpdatesOf, Runs;
    NotYet(file, p);
    LastStep(Start(file), steps);
    var before, last := steps[..|steps| - 1], steps[|steps| - 1];
    var s := After(Start(file), before);
    StepOfOne(s, last, p);
    if last.process == p {
      l := |steps| - 1;
    } else {
      l := LoadedSince(file, before, p);
      RunKeepsInvariant(file, before);
      OneHolder(s, Initial(file), p, last.process);
      assert before[..l] == steps[..l];
      assert forall k :: l < k < |before| ==> steps[k] == before[k];
    }
  }

  // A step that is no update leaves the creations before it as they are.
  lemma ReplacesBefore<S, A>(steps: seq<Step<S, A>>, n: nat, i: nat)
    requires i < n <= |steps|
    requires forall l: nat, w: nat :: l < i && n <= w ==> !WritesLoad(steps, l, w)
    ensures Replaces(steps, i) <==> Replaces(steps[..n], i)
  {
    assert steps[..n][..i] == steps[..i];
    forall l: nat, w: nat | l < i < w
      ensures WritesLoad(steps[..n], l, w) <==> w < n && WritesLoad(steps, l, w)
    {
    }
  }

  // All updates of the run are in the file, in the order of the lock, if no
  // creation has replaced one, and else some are missing.
  ghost predicate KeptUnlessReplaced<S, A>(log: seq<Update<S, A>>, steps: seq<Step<S, A>>) {
    && |log| <= |UpdatesOf(steps)|
    && ((forall i: nat :: !Replaces(steps, i)) ==> log == UpdatesOf(steps))
    && (forall i: nat :: Replaces(steps, i) ==> |log| < |UpdatesOf(steps)|)
  }

  lemma LastWriterLoaded<S, A>(s: State<S, A>, step: Step<S, A>)
    requires Enabled(s, step) && step.Write?
    ensures PhaseOf(s, step.process).Loaded?
  {
  }

  lemma {:induction false} LogIsKept<S, A>(file: Option<Version<S, A>>, steps: seq<Step<S, A>>)
    requires Runs(Start(file), steps)
    ensures KeptUnlessReplaced(After(Start(file), steps).log, steps)
    decreases |steps|
  {
    if steps == [] {
      assert UpdatesOf(steps) == [];
    } else {
      var before, last := steps[..|steps| - 1], steps[|steps| - 1];
      assert steps == before + [last];
      var s := After(Start(file), before);
      assert After(Start(file), steps) == Next(s, last);
      StepOfOne(s, last, last.process);
      hide Next, Enabled, KeptUnlessReplaced, After, Start;
      if last.Write? {
        LastWriterLoaded(s, last);
        var l := LoadedSince(file, before, last.process);
        RunsPrefix(Start(file), before, l);
        LogIsKept(file, before[..l]);
        KeptByWriter(before, last, steps, l, After(Start(file), before[..l]).log);
      } else {
        LogIsKept(file, before);
        KeptByOther(steps, s.log);
      }
    }
  }

  lemma KeptByWriter<S, A>(before: seq<Step<S, A>>, last: Step<S, A>, steps: seq<Step<S, A>>, l: nat,
                           log: seq<Update<S, A>>)
    requires steps == before + [last] && last.Write? && l < |before| && before[l] == Load(last.process)
    requires forall k :: l < k < |before| ==> before[k].process != last.process && !before[k].Write?
    requires UpdatesOf(before) == UpdatesOf(before[..l]) && KeptUnlessReplaced(log, before[..l])
    ensures KeptUnlessReplaced(log + [last.update], steps)
  {
    ReplacesWithWriter(before, last, steps, l);
    assert steps[..|before|] == before && steps[..l] == before[..l];
    hide WritesLoad, Replaces;
    assert UpdatesOf(steps) == UpdatesOf(before) + [last.update];
    assert forall i: nat :: Replaces(steps[..l], i) ==> Replaces(steps, i);
  }

  // A write takes back all creations since its process loaded the file.
  lemma ReplacesWithWriter<S, A>(before: seq<Step<S, A>>, last: Step<S, A>, steps: seq<Step<S, A>>, l: nat)
    requires steps == before + [last] && last.Write? && l < |before| && before[l] == Load(last.process)
    requires forall k :: l < k < |before| ==> before[k].process != last.process && !before[k].Write?
    ensures forall i: nat :: Replaces(steps, i) <==> Replaces(before[..l], i)
  {
    var n := |before|;
    assert steps[..l] == before[..l] && steps[l] == before[l];
    assert forall k :: l < k < n ==> steps[k] == before[k];
    assert WritesLoad(steps, l, n);
    hide UpdatesOf;
    forall i: nat
      ensures Replaces(steps, i) <==> Replaces(before[..l], i)
    {
      if i < l {
        ReplacesBefore(steps, l, i);
      } else {
        assert l < i < n ==> !Replaces(steps, i);
      }
    }
  }

  lemma KeptByOther<S, A>(steps: seq<Step<S, A>>, log: seq<Update<S, A>>)
    requires steps != [] && !steps[|steps| - 1].Write?
    requires KeptUnlessReplaced(log, steps[..|steps| - 1])
    ensures KeptUnlessReplaced(if steps[|steps| - 1].CreateWrite? then [] else log, steps)
  {
    var n := |steps| - 1;
    forall i: nat | i < n
      ensures Replaces(steps, i) <==> Replaces(steps[..n], i)
    {
      ReplacesBefore(steps, n, i);
    }
    assert forall i: nat :: Replaces(steps[..n], i) ==> i < n;
    assert Replaces(steps, n) <==> steps[n].CreateWrite? && UpdatesOf(steps[..n]) != [];
  }

  // In any interleaving the file is the updates of its log on top of the first
  // document. These are all updates that were written, in the order of the lock,
  // if and only if no process creates the file over one that has updates.
  lemma NoUpdateIsLost<S, A>(file: Option<Version<S, A>>, steps: seq<Step<S, A>>)
    requires Runs(Start(file), steps)
    ensures var s := After(Start(file), steps);
            && (s.file.Some? ==> s.file.value.document == Replay(Initial(file), s.log))
            && (s.log == UpdatesOf(steps) <==> forall i: nat :: !Replaces(steps, i))
  {
    RunKeepsInvariant(file, steps);
    LogIsKept(file, steps);
  }

  // When the file is there from the start, nothing is ever created over it.
  lemma {:induction false} NoUpdateIsLostInAFile<S, A>(first: Version<S, A>, steps: seq<Step<S, A>>)
    requires Runs(Start(Some(first)), steps)
    ensures var s := After(Start(Some(first)), steps);
            s.file.Some? && s.file.value.document == Replay(first.document, UpdatesOf(steps))
  {
    NeverCreating(first, steps);
    NoUpdateIsLost(Some(first), steps);
    assert forall i: nat :: !Replaces(steps, i);
  }

  lemma {:induction false} NeverCreating<S, A>(first: Version<S, A>, steps: seq<Step<S, A>>)
    requires Runs(Start(Some(first)), steps)
    ensures After(Start(Some(first)), steps).file.Some?
    ensures forall p: Process :: !PhaseOf(After(Start(Some(first)), steps), p).Creating?
    ensures forall k :: 0 <= k < |steps| ==> !steps[k].CreateWrite?
    decreases |steps|
  {
    if steps == [] {
    } else {
      var n := |steps| - 1;
      NeverCreating(first, steps[..n]);
      var before := After(Start(Some(first)), steps[..n]);
      hide Next, Enabled, PhaseOf, Runs;
      forall p: Process
        ensures !PhaseOf(After(Start(Some(first)), steps), p).Creating? && !steps[n].CreateWrite?
      {
        StepOfOne(before, steps[n], p);
      }
      assert forall k :: 0 <= k < n ==> steps[..n][k] == steps[k];
    }
  }

  // At any time at most one process is between locking and unlocking.
  lemma OneWriterAtATime<S, A>(file: Option<Version<S, A>>, steps: seq<Step<S, A>>, p: Process, q: Process)
    requires Runs(Start(file), steps)
    requires var s := After(Start(file), steps); HoldsLock(PhaseOf(s, p)) && HoldsLock(PhaseOf(s, q))
    ensures p == q
  {
    RunKeepsInvariant(file, steps);
  }

  // No step is of this process.
  predicate Without<S, A>(steps: seq<Step<S, A>>, r: Process) {
    forall k :: 0 <= k < |steps| ==> steps[k].process != r
  }

  // The states differ only in what concerns one process.
  ghost predicate SameBut<S, A>(s: State<S, A>, t: State<S, A>, r: Process) {
    && s.file == t.file && s.versions == t.versions && s.holder == t.holder && s.log == t.log
    && (forall p: Process :: p != r ==> PhaseOf(s, p) == PhaseOf(t, p))
    && (forall p: Process :: p != r ==>
          (p in s.caches <==> p in t.caches) && (p in s.caches ==> s.caches[p] == t.caches[p]))
  }

  // Steps of the others do not depend on the process, and leave it alone.
  lemma StepSameBut<S, A>(s: State<S, A>, t: State<S, A>, step: Step<S, A>, r: Process)
    requires SameBut(s, t, r) && Enabled(s, step) && step.process != r
    ensures Enabled(t, step) && SameBut(Next(s, step), Next(t, step), r)
    ensures PhaseOf(Next(t, step), r) == PhaseOf(t, r)
    ensures r in t.caches <==> r in Next(t, step).caches
    ensures r in t.caches ==> Next(t, step).caches[r] == t.caches[r]
  {
    StepsAlike(s, t, step);
    CachesAfter(s, step);
    CachesAfter(t, step);
    forall p: Process
      ensures p != step.process ==>
              PhaseOf(Next(s, step), p) == PhaseOf(s, p) && PhaseOf(Next(t, step), p) == PhaseOf(t, p)
    {
      StepOfOne(s, step, p);
      StepOfOne(t, step, p);
    }
    hide Enabled, Next, PhaseOf;
  }

  lemma StepsAlike<S, A>(s: State<S, A>, t: State<S, A>, step: Step<S, A>)
    requires s.file == t.file && s.versions == t.versions && s.holder == t.holder && s.log == t.log
    requires var p := step.process;
             PhaseOf(s, p) == PhaseOf(t, p) && (p in s.caches <==> p in t.caches)
                 && (p in s.caches ==> s.caches[p] == t.caches[p])
    requires Enabled(s, step)
    ensures Enabled(t, step)
    ensures var s', t', p := Next(s, step), Next(t, step), step.process;
            && s'.file == t'.file && s'.versions == t'.versions && s'.holder == t'.holder && s'.log == t'.log
            && PhaseOf(s', p) == PhaseOf(t', p) && (p in s'.caches <==> p in t'.caches)
            && (p in s'.caches ==> s'.caches[p] == t'.caches[p])
  {
  }

  lemma CachesAfter<S, A>(s: State<S, A>, step: Step<S, A>)
    requires Enabled(s, step)
    ensures forall p: Process :: p != step.process ==>
      (p in Next(s, step).caches <==> p in s.caches) && (p in s.caches ==> Next(s, step).caches[p] == s.caches[p])
  {
  }

  lemma {:induction false} RunSameBut<S, A>(s: State<S, A>, t: State<S, A>, steps: seq<Step<S, A>>, r: Process)
    requires SameBut(s, t, r) && Runs(s, steps) && Without(steps, r)
    ensures Runs(t, steps) && SameBut(After(s, steps), After(t, steps), r)
    ensures PhaseOf(After(t, steps), r) == PhaseOf(t, r)
    ensures r in t.caches <==> r in After(t, steps).caches
    ensures r in t.caches ==> After(t, steps).caches[r] == t.caches[r]
    decreases |steps|
  {
    hide SameBut, Enabled, Next, PhaseOf;
    if steps == [] {
    } else {
      var n := |steps| - 1;
      RunSameBut(s, t, steps[..n], r);
      StepSameBut(After(s, steps[..n]), After(t, steps[..n]), steps[n], r);
    }
  }

  lemma {:induction false} RunOn<S, A>(s: State<S, A>, steps: seq<Step<S, A>>, more: seq<Step<S, A>>)
    requires Runs(s, steps)
    ensures Runs(s, steps + more) <==> Runs(After(s, steps), more)
    ensures Runs(s, steps + more) ==> After(s, steps + more) == After(After(s, steps), more)
    decreases |more|
  {
    if more == [] {
      assert steps + more == steps;
    } else {
      assert (steps + more)[..|steps + more| - 1] == steps + more[..|more| - 1];
      RunOn(s, steps, more[..|more| - 1]);
    }
  }

  lemma VersionsGrow<S, A>(s: State<S, A>, step: Step<S, A>)
    requires Enabled(s, step)
    ensures |s.versions| <= |Next(s, step).versions| <= |s.versions| + 1
    ensures Next(s, step).versions[..|s.versions|] == s.versions
  {
  }

  lemma FewAtStart<S, A>(file: Option<Version<S, A>>)
    ensures Runs(Start(file), []) && |After(Start(file), []).versions| <= 1
  {
  }

  lemma LastIsInFile<S, A>(s: State<S, A>, initial: Document<S, A>)
    requires Invariant(s, initial) && s.versions != []
    ensures s.file == Some(s.versions[|s.versions| - 1])
  {
  }

  // Each version was once the last one.
  lemma {:induction false} VersionAt<S, A>(file: Option<Version<S, A>>, steps: seq<Step<S, A>>, i: nat) returns (n: nat)
    requires Runs(Start(file), steps) && i < |After(Start(file), steps).versions|
    ensures n <= |steps| && At(Start(file), steps, n).file == Some(After(Start(file), steps).versions[i])
    decreases |steps|
  {
    hide Next, Enabled, Invariant, Start, After, Runs;
    RunKeepsInvariant(file, steps);
    if i == |After(Start(file), steps).versions| - 1 {
      LastIsInFile(After(Start(file), steps), Initial(file));
      n := |steps|;
      assert steps[..n] == steps;
    } else {
      FewAtStart(file);
      LastStep(Start(file), steps);
      var m := |steps| - 1;
      VersionsGrow(After(Start(file), steps[..m]), steps[m]);
      assert After(Start(file), steps[..m]).versions[i] == After(Start(file), steps).versions[i];
      n := VersionAt(file, steps[..m], i);
      assert steps[..m][..n] == steps[..n];
    }
  }

  // A process that takes no step of the run.
  function Unused<S, A>(steps: seq<Step<S, A>>): (r: Process)
    ensures forall k :: 0 <= k < |steps| ==> steps[k].process < r
  {
    if steps == [] then 0
    else
      var r := Unused(steps[..|steps| - 1]);
      var p := steps[|steps| - 1].process;
      if p < r then r else p + 1
  }

  // A process without a cache reads the file.
  lemma ReadsNow<S, A>(s: State<S, A>, r: Process) returns (load: seq<Step<S, A>>)
    requires s.file.Some? && PhaseOf(s, r) == Idle && r !in s.caches
    ensures Runs(s, load) && SameBut(s, After(s, load), r) && PhaseOf(After(s, load), r) == Idle
    ensures r in After(s, load).caches && After(s, load).caches[r] == s.file.value
  {
    var t := Next(s, ReadStat(r));
    var first: seq<Step<S, A>> := [ReadStat(r)];
    load := [ReadStat(r), ReadLoad(r)];
    NoSteps(s);
    OneStep(s, [], s, ReadStat(r), first, t);
    OneStep(s, first, t, ReadLoad(r), load, Next(t, ReadLoad(r)));
  }

  // Without a step the process stays as it was at the start.
  lemma StaysAway<S, A>(file: Option<Version<S, A>>, steps: seq<Step<S, A>>, r: Process)
    requires Runs(Start(file), steps) && Without(steps, r)
    ensures PhaseOf(After(Start(file), steps), r) == Idle && r !in After(Start(file), steps).caches
  {
    RunSameBut(Start(file), Start(file), steps, r);
  }

  // A reader that loads a version while the others go on as before answers from
  // it for as long as the stamp of the file is the same.
  lemma ReaderOfVersion<S, A>(file: Option<Version<S, A>>, steps: seq<Step<S, A>>, i: nat)
      returns (run: seq<Step<S, A>>, read: Step<S, A>)
    requires Runs(Start(file), steps)
    requires var versions := After(Start(file), steps).versions;
             i < |versions| && versions[i].stamp == versions[|versions| - 1].stamp
    ensures Runs(Start(file), run) && After(Start(file), run).versions == After(Start(file), steps).versions
    ensures Enabled(After(Start(file), run), read)
    ensures Answer(After(Start(file), run), read) == Some(After(Start(file), run).versions[i].document)
  {
    hide Runs, After, Next, Enabled, SameBut, PhaseOf, Start;
    var s := Start(file);
    var n := VersionAt(file, steps, i);
    var r := Unused(steps);
    var early, late := steps[..n], steps[n..];
    assert early + late == steps;
    RunsPrefix(s, steps, n);
    RunOn(s, early, late);
    StaysAway(file, early, r);
    var middle := After(s, early);
    var load := ReadsNow(middle, r);
    RunSameBut(middle, After(middle, load), late, r);
    RunOn(s, early, load);
    RunOn(s, early + load, late);
    run, read := early + load + late, ReadStat(r);
    RunKeepsInvariant(file, steps);
    AnswersFromCache(After(s, steps), After(s, run), Initial(file), r, i);
  }

  lemma AnswersFromCache<S, A>(s: State<S, A>, t: State<S, A>, initial: Document<S, A>, r: Process, i: nat)
    requires Invariant(s, initial) && SameBut(s, t, r) && PhaseOf(t, r) == Idle
    requires i < |s.versions| && s.versions[i].stamp == s.versions[|s.versions| - 1].stamp
    requires r in t.caches && t.caches[r] == s.versions[i]
    ensures s.versions == t.versions && Enabled(t, ReadStat(r))
            && Answer(t, ReadStat(r)) == Some(s.versions[i].document)
  {
  }

  // What a process reads next is what the file holds.
  ghost predicate ReadsFile<S(!new), A(!new)>(s: State<S, A>) {
    forall read: Step<S, A> :: Enabled(s, read) && Answer(s, read).Some? ==>
      s.file.Some? && Answer(s, read).value == s.file.value.document
  }

  // Every version with the stamp of the last one has the document of that one.
  ghost predicate StampTells<S, A>(versions: seq<Version<S, A>>) {
    forall i :: 0 <= i < |versions| && versions[i].stamp == versions[|versions| - 1].stamp ==>
      versions[i].document == versions[|versions| - 1].document
  }

  // A reader answers from what the file holds, also when it does not read the
  // file again, if and only if size and time of the file tell its document.
  lemma ReadsAreFresh<S(!new), A(!new)>(file: Option<Version<S, A>>, steps: seq<Step<S, A>>)
    requires Runs(Start(file), steps)
    ensures var versions := After(Start(file), steps).versions;
            StampTells(versions) <==>
            forall run :: Runs(Start(file), run) && After(Start(file), run).versions == versions ==>
                ReadsFile(After(Start(file), run))
  {
    hide Runs, After, Enabled, Next, Invariant, Answer, Start;
    var versions := After(Start(file), steps).versions;
    if StampTells(versions) {
      forall run | Runs(Start(file), run) && After(Start(file), run).versions == versions
        ensures ReadsFile(After(Start(file), run))
      {
        RunKeepsInvariant(file, run);
        CachesAreFresh(After(Start(file), run), Initial(file));
      }
    } else {
      var i :| 0 <= i < |versions| && versions[i].stamp == versions[|versions| - 1].stamp
            && versions[i].document != versions[|versions| - 1].document;
      var run, read := ReaderOfVersion(file, steps, i);
      RunKeepsInvariant(file, run);
      LastIsFile(After(Start(file), run), Initial(file));
      assert Enabled(After(Start(file), run), read);
      assert !ReadsFile(After(Start(file), run));
    }
  }

  lemma LastIsFile<S, A>(s: State<S, A>, initial: Document<S, A>)
    requires Invariant(s, initial) && s.versions != []
    ensures s.file == Some(s.versions[|s.versions| - 1])
  {
  }

  lemma CachesAreFresh<S(!new), A(!new)>(s: State<S, A>, initial: Document<S, A>)
    requires Invariant(s, initial) && StampTells(s.versions)
    ensures ReadsFile(s)
  {
    forall read: Step<S, A> | Enabled(s, read) && Answer(s, read).Some?
      ensures s.file.Some? && Answer(s, read).value == s.file.value.document
    {
      if read.ReadStat? {
        var i :| 0 <= i < |s.versions| && s.versions[i] == s.caches[read.process];
      }
    }
  }

  lemma NoSteps<S, A>(s: State<S, A>)
    ensures Runs(s, []) && After(s, []) == s
  {
  }

  predicate Leads<S(==), A(==)>(s: State<S, A>, step: Step<S, A>, t: State<S, A>) {
    && Enabled(s, step)
    && var n := Next(s, step);
       && n.file == t.file && n.versions == t.versions && n.holder == t.holder
       && n.phases == t.phases && n.caches == t.caches && n.log == t.log
  }

  lemma OneStep<S, A>(s: State<S, A>, steps: seq<Step<S, A>>, t: State<S, A>, step: Step<S, A>, more: seq<Step<S, A>>,
                      next: State<S, A>)
    requires Runs(s, steps) && After(s, steps) == t && Leads(t, step, next) && more == steps + [step]
    ensures Runs(s, more) && After(s, more) == next
  {
    assert more[..|steps|] == steps;
  }

  lemma ReadsThenLocks<S, A>(v: Version<S, A>, s1: State<S, A>, s2: State<S, A>, s3: State<S, A>)
    requires s1 == State(Some(v), [v], None, map[1 := Reading], map[], [])
    requires s2 == State(Some(v), [v], None, map[1 := Idle], map[1 := v], [])
    requires s3 == State(Some(v), [v], Some(2), map[1 := Idle, 2 := Locked], map[1 := v], [])
    ensures Leads(Start(Some(v)), ReadStat(1), s1) && Leads(s1, ReadLoad(1), s2) && Leads(s2, Acquire(2), s3)
  {
  }

  lemma LoadsThenWrites<S, A>(v: Version<S, A>, w: Version<S, A>, update: Update<S, A>, s3: State<S, A>, s4: State<S,
                              A>, s5: State<S, A>)
    requires v.stamp == w.stamp && w.document == Apply(v.document, update) && !update.Delete?
    requires s3 == State(Some(v), [v], Some(2), map[1 := Idle, 2 := Locked], map[1 := v], [])
    requires s4 == State(Some(v), [v], Some(2), map[1 := Idle, 2 := Loaded(v.document, [])], map[1 := v, 2 := v], [])
    requires s5 == State(Some(w), [v, w], Some(2), map[1 := Idle, 2 := Written], map[1 := v, 2 := w], [update])
    ensures Leads(s3, Load(2), s4) && Leads(s4, Write(2, update, w.stamp), s5)
    ensures Enabled(s5, ReadStat(1)) && Answer(s5, ReadStat(1)) == Some(v.document)
  {
  }

  lemma TwoCreate<S, A>(v: Version<S, A>, s1: State<S, A>, s2: State<S, A>, s3: State<S, A>)
    requires v.document == Empty()
    requires s1 == State(None, [], None, map[1 := Creating], map[], [])
    requires s2 == State(None, [], None, map[1 := Creating, 2 := Creating], map[], [])
    requires s3 == State(Some(v), [v], None, map[1 := Creating, 2 := Idle], map[2 := v], [])
    ensures Leads(Start(None), CreateCheck(1), s1) && Leads(s1, CreateCheck(2), s2)
            && Leads(s2, CreateWrite(2, v.stamp), s3)
  {
  }

  lemma CreatorLocks<S, A>(v: Version<S, A>, s3: State<S, A>, s4: State<S, A>, s5: State<S, A>)
    requires s3 == State(Some(v), [v], None, map[1 := Creating, 2 := Idle], map[2 := v], [])
    requires s4 == State(Some(v), [v], Some(2), map[1 := Creating, 2 := Locked], map[], [])
    requires s5 == State(Some(v), [v], Some(2), map[1 := Creating, 2 := Loaded(v.document, [])], map[2 := v], [])
    ensures Leads(s3, Acquire(2), s4) && Leads(s4, Load(2), s5)
  {
  }

  lemma WriteIsReplaced<S, A>(v: Version<S, A>, w: Version<S, A>, update: Update<S, A>, s5: State<S, A>, s6: State<S,
                              A>, s7: State<S, A>)
    requires v.document == Empty() && v.stamp == w.stamp && w.document == Apply(v.document, update) && !update.Delete?
    requires s5 == State(Some(v), [v], Some(2), map[1 := Creating, 2 := Loaded(v.document, [])], map[2 := v], [])
    requires s6 == State(Some(w), [v, w], Some(2), map[1 := Creating, 2 := Written], map[2 := w], [update])
    requires s7 == State(Some(v), [v, w, v], Some(2), map[1 := Idle, 2 := Written], map[1 := v, 2 := w], [])
    ensures Leads(s5, Write(2, update, w.stamp), s6) && Leads(s6, CreateWrite(1, v.stamp), s7)
  {
  }

  // A stale read: a secret is replaced by one of the same length at the same
  // time, and a process with a cache goes on with the old one.
  lemma SameStampHidesAWrite()
    ensures var stamp := Stamp(7, 300);
            var first: Document<string, string> := Document(map["name" := "old"], map[]);
            var steps := [ReadStat(1), ReadLoad(1), Acquire(2), Load(2), Write(2, Put("name", "new"), stamp)];
            && Runs(Start(Some(Version(stamp, first))), steps)
            && var s := After(Start(Some(Version(stamp, first))), steps);
               && Enabled(s, ReadStat(1)) && Answer(s, ReadStat(1)) == Some(first)
               && s.file.Some? && s.file.value.document == Document(map["name" := "new"], map[])
  {
    hide Runs, After, Leads, Enabled, Next, Answer;
    var stamp := Stamp(7, 300);
    var first: Document<string, string> := Document(map["name" := "old"], map[]);
    var put: Update<string, string> := Put("name", "new");
    var v, w := Version(stamp, first), Version(stamp, Document(map["name" := "new"], map[]));
    assert Apply(first, put) == w.document;
    var s0 := Start(Some(v));
    var w5 := Write(2, put, stamp);
    var s1 := State(Some(v), [v], None, map[1 := Reading], map[], []);
    var s2 := State(Some(v), [v], None, map[1 := Idle], map[1 := v], []);
    var s3 := State(Some(v), [v], Some(2), map[1 := Idle, 2 := Locked], map[1 := v], []);
    var s4 := State(Some(v), [v], Some(2), map[1 := Idle, 2 := Loaded(first, [])], map[1 := v, 2 := v], []);
    var s5 := State(Some(w), [v, w], Some(2), map[1 := Idle, 2 := Written], map[1 := v, 2 := w], [put]);
    ReadsThenLocks(v, s1, s2, s3);
    LoadsThenWrites(v, w, put, s3, s4, s5);
    NoSteps(s0);
    OneStep(s0, [], s0, ReadStat(1), [ReadStat(1)], s1);
    OneStep(s0, [ReadStat(1)], s1, ReadLoad(1), [ReadStat(1), ReadLoad(1)], s2);
    OneStep(s0, [ReadStat(1), ReadLoad(1)], s2, Acquire(2), [ReadStat(1), ReadLoad(1), Acquire(2)], s3);
    OneStep(s0, [ReadStat(1), ReadLoad(1), Acquire(2)], s3, Load(2), [ReadStat(1), ReadLoad(1), Acquire(2), Load(2)],
            s4);
    OneStep(s0, [ReadStat(1), ReadLoad(1), Acquire(2), Load(2)], s4, w5,
            [ReadStat(1), ReadLoad(1), Acquire(2), Load(2), w5], s5);
  }

  // A run that loses an update: two processes see that there is no file, one
  // creates it and stores a secret, and then the other one creates it again.
  lemma CreatingTwiceLosesAnUpdate()
    ensures var stamp := Stamp(7, 300);
            var steps: seq<Step<string, string>> :=
              [CreateCheck(1), CreateCheck(2), CreateWrite(2, stamp), Acquire(2), Load(2),
               Write(2, Put("name", "value"), stamp), CreateWrite(1, stamp)];
            && Runs(Start(None), steps) && Replaces(steps, 6)
            && After(Start(None), steps).file == Some(Version(stamp, Empty()))
            && Replay(Empty(), UpdatesOf(steps)) == Document(map["name" := "value"], map[])
  {
    hide Runs, After, Leads, Enabled, Next;
    var stamp := Stamp(7, 300);
    var put: Update<string, string> := Put("name", "value");
    var v: Version<string, string> := Version(stamp, Empty());
    var w := Version(stamp, Document(map["name" := "value"], map[]));
    assert Apply(Empty(), put) == w.document;
    var s0: State<string, string> := Start(None);
    var s1 := State(None, [], None, map[1 := Creating], map[], []);
    var s2 := State(None, [], None, map[1 := Creating, 2 := Creating], map[], []);
    var s3 := State(Some(v), [v], None, map[1 := Creating, 2 := Idle], map[2 := v], []);
    var s4 := State(Some(v), [v], Some(2), map[1 := Creating, 2 := Locked], map[], []);
    var s5 := State(Some(v), [v], Some(2), map[1 := Creating, 2 := Loaded(Empty(), [])], map[2 := v], []);
    var s6 := State(Some(w), [v, w], Some(2), map[1 := Creating, 2 := Written], map[2 := w], [put]);
    var s7 := State(Some(v), [v, w, v], Some(2), map[1 := Idle, 2 := Written], map[1 := v, 2 := w], []);
    var t1, t2, t3 := CreateCheck(1), CreateCheck(2), CreateWrite(2, stamp);
    var t4, t5, t6, t7 := Acquire(2), Load(2), Write(2, put, stamp), CreateWrite(1, stamp);
    TwoCreate(v, s1, s2, s3);
    CreatorLocks(v, s3, s4, s5);
    WriteIsReplaced(v, w, put, s5, s6, s7);
    NoSteps(s0);
    OneStep(s0, [], s0, t1, [t1], s1);
    OneStep(s0, [t1], s1, t2, [t1, t2], s2);
    OneStep(s0, [t1, t2], s2, t3, [t1, t2, t3], s3);
    OneStep(s0, [t1, t2, t3], s3, t4, [t1, t2, t3, t4], s4);
    OneStep(s0, [t1, t2, t3, t4], s4, t5, [t1, t2, t3, t4, t5], s5);
    OneStep(s0, [t1, t2, t3, t4, t5], s5, t6, [t1, t2, t3, t4, t5, t6], s6);
    OneStep(s0, [t1, t2, t3, t4, t5, t6], s6, t7, [t1, t2, t3, t4, t5, t6, t7], s7);
    LostUpdate(t1, t2, t3, t4, t5, t6, t7);
  }

  lemma LostUpdate<S, A>(t1: Step<S, A>, t2: Step<S, A>, t3: Step<S, A>, t4: Step<S, A>, t5: Step<S, A>, t6: Step<S,
                         A>, t7: Step<S, A>)
    requires !t1.Write? && !t2.Write? && !t3.Write? && !t4.Write? && !t5.Write? && t6.Write? && t7.CreateWrite?
    ensures var steps := [t1, t2, t3, t4, t5, t6, t7];
            UpdatesOf(steps) == [t6.update] && Replaces(steps, 6)
  {
    var steps := [t1, t2, t3, t4, t5, t6, t7];
    assert steps[..6] == [t1, t2, t3, t4, t5, t6] && steps[..6][..5] == [t1, t2, t3, t4, t5];
    assert steps[..6][..5][..4] == [t1, t2, t3, t4] && [t1, t2, t3, t4][..3] == [t1, t2, t3];
    assert [t1, t2, t3][..2] == [t1, t2] && [t1, t2][..1] == [t1] && [t1][..0] == [];
    assert UpdatesOf<S, A>([]) == [];
    assert UpdatesOf([t1, t2]) == [];
    assert UpdatesOf([t1, t2, t3, t4]) == [];
    assert UpdatesOf(steps[..6]) == [t6.update];
  }
}
