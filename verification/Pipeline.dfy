/** The download pipeline as interleaved steps of the program, the downloader pool and the notifier
    pool (include/download-pipeline.h). */
module Pipeline {
  import opened Download

  /** A queue element. `id`, `tries` and `passes` are bookkeeping: which append it stems from, the
      outcomes of its counted attempts, and how often it went through the wrapper. */
  datatype Job = Job(id: nat, info: Info, tries: seq<bool>, passes: nat)

  /** `picked` and `processed` are what downloader workers hold before and after the wrapper,
      `notifying` what notifiers hold; `notified` is where jobs end. */
  datatype State = State(
    known: set<string>,
    toDownload: seq<Job>,
    picked: seq<Job>,
    processed: seq<Job>,
    downloaded: seq<Job>,
    notifying: seq<Job>,
    notified: seq<Job>,
    appended: nat)

  datatype Action =
    | Append(server: string, did: string)
    | GetInput
    | ProcessInput(worker: nat, opens: bool)
    | HandleOutput(worker: nat)
    | GetNotice
    | Notify(worker: nat)

  function Init(known: set<string>): State {
    State(known, [], [], [], [], [], [], 0)
  }

  function NewJob(id: nat, server: string, did: string): Job {
    Job(id, Info(server, did, 0, 0, false), [], 0)
  }

  /** What an append does, with whatever it is given. */
  function Enqueued(s: State, info: Info): State {
    s.(toDownload := s.toDownload + [Job(s.appended, info, [], 0)], appended := s.appended + 1)
  }

  function Without(jobs: seq<Job>, i: nat): seq<Job>
    requires i < |jobs|
  {
    jobs[..i] + jobs[i + 1..]
  }

  /** The wrapper, with the bookkeeping. */
  function Passed(j: Job, known: set<string>, opens: bool): Job {
    var info := Wrapper(j.info, known, opens);
    Job(j.id, info, if info.attempt > j.info.attempt then j.tries + [opens] else j.tries, j.passes + 1)
  }

  /** `handle_output` sends a job on to the notifiers, or back to the input queue. */
  predicate Leaves(j: Job) {
    j.info.downloaded || j.info.returnCode == TOO_MANY_ATTEMPTS
  }

  predicate Enabled(s: State, a: Action) {
    match a
    case Append(_, _) => true
    case GetInput => s.toDownload != []
    case ProcessInput(w, _) => w < |s.picked|
    case HandleOutput(w) => w < |s.processed|
    case GetNotice => s.downloaded != []
    case Notify(w) => w < |s.notifying|
  }

  function Next(s: State, a: Action): State
    requires Enabled(s, a)
  {
    match a
    case Append(server, did) => Enqueued(s, Info(server, did, 0, 0, false))
    case GetInput =>
      s.(toDownload := s.toDownload[1..], picked := s.picked + [s.toDownload[0]])
    case ProcessInput(w, opens) =>
      s.(picked := Without(s.picked, w), processed := s.processed + [Passed(s.picked[w], s.known, opens)])
    case HandleOutput(w) =>
      var j := s.processed[w];
      if Leaves(j) then s.(processed := Without(s.processed, w), downloaded := s.downloaded + [j])
      else s.(processed := Without(s.processed, w), toDownload := s.toDownload + [j])
    case GetNotice =>
      s.(downloaded := s.downloaded[1..], notifying := s.notifying + [s.downloaded[0]])
    case Notify(w) =>
      s.(notifying := Without(s.notifying, w), notified := s.notified + [s.notifying[w]])
  }

  predicate IsRun(s: State, actions: seq<Action>)
    decreases actions
  {
    actions == [] || (Enabled(s, actions[0]) && IsRun(Next(s, actions[0]), actions[1..]))
  }

  function Exec(s: State, actions: seq<Action>): State
    requires IsRun(s, actions)
    decreases actions
  {
    if actions == [] then s else Exec(Next(s, actions[0]), actions[1..])
  }

  // ---------- the code, with its shared queues ----------

  class RucioPipeline {
    const known: set<string>
    var toDownload: seq<Job>
    var picked: seq<Job>
    var processed: seq<Job>
    var downloaded: seq<Job>
    var notifying: seq<Job>
    var notified: seq<Job>
    var appended: nat

    function View(): State
      reads this
    {
      State(known, toDownload, picked, processed, downloaded, notifying, notified, appended)
    }

    constructor (known: set<string>)
      ensures View() == Init(known)
    {
      this.known := known;
      toDownload, picked, processed, downloaded, notifying, notified := [], [], [], [], [], [];
      appended := 0;
    }

    method AppendNewDownload(info: DownloadInfo)
      modifies this
      ensures View() == Enqueued(old(View()), info.Value())
    {
      toDownload := toDownload + [Job(appended, info.Value(), [], 0)];
      appended := appended + 1;
    }

    method DownloaderGetInput()
      requires Enabled(View(), GetInput)
      modifies this
      ensures View() == Next(old(View()), GetInput)
    {
      picked := picked + [toDownload[0]];
      toDownload := toDownload[1..];
    }

    method DownloaderProcessInput(worker: nat, copyThrows: bool, opens: bool)
      requires Enabled(View(), ProcessInput(worker, opens))
      modifies this
      ensures View() == Next(old(View()), ProcessInput(worker, opens))
    {
      var j := picked[worker];
      var input := new DownloadInfo.Copy(j.info);
      input.RucioDownloadWrapper(known, copyThrows, opens);
      picked := picked[..worker] + picked[worker + 1..];
      processed := processed + [Job(j.id, input.Value(),
        if input.fattempt > j.info.attempt then j.tries + [opens] else j.tries, j.passes + 1)];
    }

    method DownloaderHandleOutput(worker: nat)
      requires Enabled(View(), HandleOutput(worker))
      modifies this
      ensures View() == Next(old(View()), HandleOutput(worker))
    {
      var output := processed[worker];
      processed := processed[..worker] + processed[worker + 1..];
      if output.info.downloaded {
        downloaded := downloaded + [output];
      } else {
        if output.info.returnCode != TOO_MANY_ATTEMPTS {
          toDownload := toDownload + [output];
        } else {
          downloaded := downloaded + [output];
        }
      }
    }

    method NotifierGetInput()
      requires Enabled(View(), GetNotice)
      modifies this
      ensures View() == Next(old(View()), GetNotice)
    {
      notifying := notifying + [downloaded[0]];
      downloaded := downloaded[1..];
    }

    method NotifierProcessInput(worker: nat)
      requires Enabled(View(), Notify(worker))
      modifies this
      ensures View() == Next(old(View()), Notify(worker))
    {
      notified := notified + [notifying[worker]];
      notifying := notifying[..worker] + notifying[worker + 1..];
    }
  }

  // ---------- weights of job lists ----------

  function Weigh(jobs: seq<Job>, f: Job -> nat): nat {
    if jobs == [] then 0 else f(jobs[0]) + Weigh(jobs[1..], f)
  }

  lemma {:induction false} WeighConcat(a: seq<Job>, b: seq<Job>, f: Job -> nat)
    ensures Weigh(a + b, f) == Weigh(a, f) + Weigh(b, f)
  {
    if a == [] {
      assert a + b == b;
    } else {
      assert (a + b)[1..] == a[1..] + b;
      WeighConcat(a[1..], b, f);
    }
  }

  lemma WeighOneMore(jobs: seq<Job>, j: Job, f: Job -> nat)
    ensures Weigh(jobs + [j], f) == Weigh(jobs, f) + f(j)
  {
    WeighConcat(jobs, [j], f);
    assert [j][1..] == [];
  }

  lemma WeighMiddle(a: seq<Job>, j: Job, b: seq<Job>, f: Job -> nat)
    ensures Weigh(a + [j] + b, f) == Weigh(a + b, f) + f(j)
  {
    WeighConcat(a + [j], b, f);
    WeighOneMore(a, j, f);
    WeighConcat(a, b, f);
  }

  lemma WeighOneLess(jobs: seq<Job>, i: nat, f: Job -> nat)
    requires i < |jobs|
    ensures Weigh(jobs, f) == Weigh(Without(jobs, i), f) + f(jobs[i])
  {
    hide Weigh;
    assert jobs == jobs[..i] + [jobs[i]] + jobs[i + 1..];
    WeighMiddle(jobs[..i], jobs[i], jobs[i + 1..], f);
  }

  lemma WeighFirstLess(jobs: seq<Job>, f: Job -> nat)
    requires jobs != []
    ensures Weigh(jobs, f) == f(jobs[0]) + Weigh(jobs[1..], f)
  {
  }

  // ---------- every reachable state ----------

  function HasId(id: nat): Job -> nat {
    (j: Job) => if j.id == id then 1 else 0
  }

  /** In how many places, and how often, a job is. */
  function Places(s: State, id: nat): nat {
    Weigh(s.toDownload, HasId(id)) + Weigh(s.picked, HasId(id)) + Weigh(s.processed, HasId(id))
    + Weigh(s.downloaded, HasId(id)) + Weigh(s.notifying, HasId(id)) + Weigh(s.notified, HasId(id))
  }

  ghost predicate ExactlyOnePlace(s: State) {
    forall id: nat :: Places(s, id) == if id < s.appended then 1 else 0
  }

  predicate AllFailed(tries: seq<bool>) {
    forall i :: 0 <= i < |tries| ==> !tries[i]
  }

  /** Not yet decided: so far every attempt failed. A job for an unknown server is never even tried. */
  predicate Waiting(j: Job, known: set<string>) {
    && !j.info.downloaded && j.info.attempt == |j.tries| <= MAX_ATTEMPTS && AllFailed(j.tries)
    && (j.info.server in known ==>
          j.passes == |j.tries| && j.info.returnCode == if j.tries == [] then 0 else FILE_NOT_FOUND)
    && (j.info.server !in known ==> j.tries == [] && j.info.returnCode == if j.passes == 0 then 0 else SERVER_NOT_FOUND)
  }

  /** Downloaded at the last of one to four attempts, or given up after exactly four failures. */
  predicate Decided(j: Job, known: set<string>) {
    && j.info.server in known && j.info.attempt == |j.tries|
    && if j.info.downloaded then
         && j.info.returnCode == 0 && 1 <= |j.tries| <= MAX_ATTEMPTS && j.passes == |j.tries|
         && AllFailed(j.tries[..|j.tries| - 1]) && j.tries[|j.tries| - 1]
       else
         && j.info.returnCode == TOO_MANY_ATTEMPTS && |j.tries| == MAX_ATTEMPTS && AllFailed(j.tries)
         && j.passes == MAX_ATTEMPTS + 1
  }

  predicate AllWaiting(jobs: seq<Job>, known: set<string>) {
    forall i :: 0 <= i < |jobs| ==> Waiting(jobs[i], known)
  }

  predicate AllDecided(jobs: seq<Job>, known: set<string>) {
    forall i :: 0 <= i < |jobs| ==> Decided(jobs[i], known)
  }

  predicate Consistent(s: State) {
    && AllWaiting(s.toDownload, s.known) && AllWaiting(s.picked, s.known)
    && (forall i :: 0 <= i < |s.processed| ==>
          if Leaves(s.processed[i]) then Decided(s.processed[i], s.known) else Waiting(s.processed[i], s.known))
    && AllDecided(s.downloaded, s.known) && AllDecided(s.notifying, s.known) && AllDecided(s.notified, s.known)
  }

  ghost predicate Inv(s: State) {
    ExactlyOnePlace(s) && Consistent(s)
  }

  /** The wrapper takes an undecided job to a decided one or to an undecided one. */
  lemma PassedJob(j: Job, known: set<string>, opens: bool)
    requires Waiting(j, known)
    ensures var k := Passed(j, known, opens);
            k.id == j.id && if Leaves(k) then Decided(k, known) else Waiting(k, known)
  {
    var k := Passed(j, known, opens);
    if j.info.server in known && j.info.attempt < MAX_ATTEMPTS {
      assert k.tries == j.tries + [opens];
      assert k.tries[..|k.tries| - 1] == j.tries;
    }
  }

  lemma PlacesKept(s: State, a: Action, id: nat)
    requires Enabled(s, a)
    ensures Places(Next(s, a), id) == Places(s, id) + if a.Append? && id == s.appended then 1 else 0
  {
    var f := HasId(id);
    match a
    case Append(server, did) =>
      WeighOneMore(s.toDownload, NewJob(s.appended, server, did), f);
    case GetInput =>
      WeighFirstLess(s.toDownload, f);
      WeighOneMore(s.picked, s.toDownload[0], f);
    case ProcessInput(w, opens) =>
      WeighOneLess(s.picked, w, f);
      WeighOneMore(s.processed, Passed(s.picked[w], s.known, opens), f);
    case HandleOutput(w) =>
      WeighOneLess(s.processed, w, f);
      WeighOneMore(s.downloaded, s.processed[w], f);
      WeighOneMore(s.toDownload, s.processed[w], f);
    case GetNotice =>
      WeighFirstLess(s.downloaded, f);
      WeighOneMore(s.notifying, s.downloaded[0], f);
    case Notify(w) =>
      WeighOneLess(s.notifying, w, f);
      WeighOneMore(s.notified, s.notifying[w], f);
  }

  lemma ConsistencyKept(s: State, a: Action)
    requires Consistent(s) && Enabled(s, a)
    ensures Consistent(Next(s, a))
  {
    match a
    case Append(server, did) =>
    case GetInput =>
    case ProcessInput(w, opens) =>
      PassedJob(s.picked[w], s.known, opens);
    case HandleOutput(w) =>
    case GetNotice =>
    case Notify(w) =>
  }

  /** What every step keeps. */
  lemma StepKeepsInv(s: State, a: Action)
    requires Inv(s) && Enabled(s, a)
    ensures Inv(Next(s, a)) && Next(s, a).known == s.known
  {
    ConsistencyKept(s, a);
    forall id: nat
      ensures Places(Next(s, a), id) == if id < Next(s, a).appended then 1 else 0
    {
      PlacesKept(s, a, id);
    }
  }

  lemma {:induction false} RunKeepsInv(s: State, actions: seq<Action>)
    requires Inv(s) && IsRun(s, actions)
    ensures Inv(Exec(s, actions)) && Exec(s, actions).known == s.known
    decreases actions
  {
    if actions != [] {
      StepKeepsInv(s, actions[0]);
      RunKeepsInv(Next(s, actions[0]), actions[1..]);
    }
  }

  /** The same in numbers. */
  predicate Numbers(j: Job) {
    if j.info.downloaded then j.info.returnCode == 0 && 1 <= j.info.attempt <= 4 && j.passes == j.info.attempt
    else j.info.returnCode == 8 && j.info.attempt == 4 && j.passes == 5
  }

  predicate WaitingNumbers(j: Job, known: set<string>) {
    if j.info.server in known then j.info.attempt == j.passes <= 4 && j.info.returnCode == if j.passes == 0 then 0 else 1
    else j.info.attempt == 0 && j.info.returnCode == if j.passes == 0 then 0 else 2
  }

  /** In every reachable state each appended job is in exactly one place; a job past the downloader is
      either downloaded with code 0 at the last of one to four attempts, or has failed with
      TOO_MANY_ATTEMPTS after exactly four; and no job ever passes the wrapper more than five times
      unless its server is unknown. */
  lemma ReachableStates(known: set<string>, actions: seq<Action>)
    requires IsRun(Init(known), actions)
    ensures var s := Exec(Init(known), actions);
            && Inv(s)
            && (forall j :: j in s.downloaded + s.notifying + s.notified ==> Decided(j, known) && Numbers(j))
            && (forall j :: j in s.toDownload + s.picked ==> Waiting(j, known) && WaitingNumbers(j, known))
            && (forall j :: j in s.toDownload + s.picked + s.processed && j.info.server in known ==> j.passes <= 5)
  {
    RunKeepsInv(Init(known), actions);
    var s := Exec(Init(known), actions);
    forall j | j in s.downloaded + s.notifying + s.notified
      ensures Decided(j, known)
    {
      assert j in s.downloaded || j in s.notifying || j in s.notified;
    }
    forall j | j in s.toDownload + s.picked
      ensures Waiting(j, known)
    {
      assert j in s.toDownload || j in s.picked;
    }
    forall j | j in s.toDownload + s.picked + s.processed && j.info.server in known
      ensures j.passes <= 5
    {
      assert j in s.toDownload || j in s.picked || j in s.processed;
    }
  }

  // ---------- first come, first served ----------

  /** The jobs that an action puts into the input queue: a new one, or one to be tried again. */
  function Queued(s: State, a: Action): seq<Job>
    requires Enabled(s, a)
  {
    match a
    case Append(server, did) => [NewJob(s.appended, server, did)]
    case HandleOutput(w) =>
      var j := s.processed[w];
      if j.info.downloaded || j.info.returnCode == 8 then [] else [j]
    case _ => []
  }

  /** The jobs that an action hands to the notifiers' queue. */
  function Released(s: State, a: Action): seq<Job>
    requires Enabled(s, a)
  {
    match a
    case HandleOutput(w) =>
      var j := s.processed[w];
      if j.info.downloaded || j.info.returnCode == 8 then [j] else []
    case _ => []
  }

  /** The jobs that workers hold after the action as their latest. */
  function Taken(s: State, a: Action): seq<Job>
    requires Enabled(s, a)
  {
    if a.GetInput? then Latest(Next(s, a).picked) else []
  }

  function TakenForNotice(s: State, a: Action): seq<Job>
    requires Enabled(s, a)
  {
    if a.GetNotice? then Latest(Next(s, a).notifying) else []
  }

  function Latest(jobs: seq<Job>): seq<Job> {
    if jobs == [] then [] else [jobs[|jobs| - 1]]
  }

  /** What an observation of single actions yields along a run. */
  function Along(s: State, actions: seq<Action>, see: (State, Action) --> seq<Job>): seq<Job>
    requires IsRun(s, actions)
    requires forall t, a :: Enabled(t, a) ==> see.requires(t, a)
    decreases actions
  {
    if actions == [] then [] else see(s, actions[0]) + Along(Next(s, actions[0]), actions[1..], see)
  }

  lemma StepInOrder(s: State, a: Action)
    requires Enabled(s, a)
    ensures Taken(s, a) + Next(s, a).toDownload == s.toDownload + Queued(s, a)
    ensures TakenForNotice(s, a) + Next(s, a).downloaded == s.downloaded + Released(s, a)
  {
  }

  /** Jobs are taken in the order in which they were queued, retries behind those that wait already: along
      every run those taken, followed by those still waiting, are those that waited at first, followed by
      those queued since. The same holds for the notifiers' queue. */
  lemma {:induction false} FirstComeFirstServed(s: State, actions: seq<Action>)
    requires IsRun(s, actions)
    ensures Along(s, actions, Taken) + Exec(s, actions).toDownload == s.toDownload + Along(s, actions, Queued)
    ensures Along(s, actions, TakenForNotice) + Exec(s, actions).downloaded == s.downloaded + Along(s, actions, Released)
    decreases actions
  {
    hide Queued, Released, Taken, TakenForNotice, Next, Enabled;
    if actions == [] {
      assert [] + s.toDownload == s.toDownload + [] && [] + s.downloaded == s.downloaded + [];
    } else {
      var a, t, rest := actions[0], Next(s, actions[0]), actions[1..];
      StepInOrder(s, a);
      FirstComeFirstServed(t, rest);
      Shift(Taken(s, a), Along(t, rest, Taken), Exec(t, rest).toDownload, t.toDownload,
            Along(t, rest, Queued), s.toDownload, Queued(s, a));
      Shift(TakenForNotice(s, a), Along(t, rest, TakenForNotice), Exec(t, rest).downloaded, t.downloaded,
            Along(t, rest, Released), s.downloaded, Released(s, a));
    }
  }

  lemma Shift(taken: seq<Job>, more: seq<Job>, last: seq<Job>, middle: seq<Job>, later: seq<Job>, first: seq<Job>,
              queued: seq<Job>)
    requires more + last == middle + later && taken + middle == first + queued
    ensures taken + more + last == first + (queued + later)
  {
    assert taken + more + last == taken + (more + last);
    assert taken + (middle + later) == taken + middle + later;
  }

  // ---------- termination ----------

  function QueueRank(j: Job): nat {
    5 + if j.info.attempt <= MAX_ATTEMPTS then 3 * (MAX_ATTEMPTS - j.info.attempt) else 0
  }

  function PickedRank(j: Job): nat {
    QueueRank(j) - 1
  }

  function ProcessedRank(j: Job): nat {
    if Leaves(j) then 3 else QueueRank(j) + 1
  }

  function DownloadedRank(j: Job): nat {
    2
  }

  function NotifyingRank(j: Job): nat {
    1
  }

  /** How many steps are left at most. */
  function Measure(s: State): nat {
    Weigh(s.toDownload, QueueRank) + Weigh(s.picked, PickedRank) + Weigh(s.processed, ProcessedRank)
    + Weigh(s.downloaded, DownloadedRank) + Weigh(s.notifying, NotifyingRank)
  }

  predicate KnownServers(jobs: seq<Job>, known: set<string>) {
    forall i :: 0 <= i < |jobs| ==> jobs[i].info.server in known
  }

  predicate AllKnown(s: State) {
    KnownServers(s.toDownload, s.known) && KnownServers(s.picked, s.known) && KnownServers(s.processed, s.known)
  }

  /** Along its way through the pipeline the rank of a job falls at each step. */
  lemma RanksFall(j: Job, known: set<string>, opens: bool)
    requires Waiting(j, known) && j.info.server in known
    ensures QueueRank(j) > PickedRank(j) > ProcessedRank(Passed(j, known, opens))
  {
  }

  lemma RanksFallAfter(j: Job)
    ensures Leaves(j) ==> ProcessedRank(j) > DownloadedRank(j) > NotifyingRank(j) > 0
    ensures !Leaves(j) ==> ProcessedRank(j) > QueueRank(j)
    ensures QueueRank(j) > PickedRank(j)
  {
  }

  lemma KnownKept(s: State, a: Action)
    requires AllKnown(s) && Enabled(s, a) && (a.Append? ==> a.server in s.known)
    ensures AllKnown(Next(s, a))
  {
  }

  /** Every step but an append decreases the measure; an append adds 17. */
  lemma StepDecreases(s: State, a: Action)
    requires Consistent(s) && AllKnown(s) && Enabled(s, a) && (a.Append? ==> a.server in s.known)
    ensures if a.Append? then Measure(Next(s, a)) == Measure(s) + 17 else Measure(Next(s, a)) < Measure(s)
  {
    hide Weigh, QueueRank, PickedRank, ProcessedRank, Leaves, Waiting, Decided;
    match a
    case Append(server, did) =>
      WeighOneMore(s.toDownload, NewJob(s.appended, server, did), QueueRank);
      NewRank(s.appended, server, did);
    case GetInput =>
      WeighFirstLess(s.toDownload, QueueRank);
      WeighOneMore(s.picked, s.toDownload[0], PickedRank);
      RanksFallAfter(s.toDownload[0]);
    case ProcessInput(w, opens) =>
      WeighOneLess(s.picked, w, PickedRank);
      WeighOneMore(s.processed, Passed(s.picked[w], s.known, opens), ProcessedRank);
      RanksFall(s.picked[w], s.known, opens);
    case HandleOutput(w) =>
      WeighOneLess(s.processed, w, ProcessedRank);
      WeighOneMore(s.downloaded, s.processed[w], DownloadedRank);
      WeighOneMore(s.toDownload, s.processed[w], QueueRank);
      RanksFallAfter(s.processed[w]);
    case GetNotice =>
      WeighFirstLess(s.downloaded, DownloadedRank);
      WeighOneMore(s.notifying, s.downloaded[0], NotifyingRank);
    case Notify(w) =>
      WeighOneLess(s.notifying, w, NotifyingRank);
  }

  lemma NewRank(id: nat, server: string, did: string)
    ensures QueueRank(NewJob(id, server, did)) == 17
  {
  }

  function Appends(actions: seq<Action>): nat {
    if actions == [] then 0 else (if actions[0].Append? then 1 else 0) + Appends(actions[1..])
  }

  predicate AppendsKnown(actions: seq<Action>, known: set<string>) {
    forall i :: 0 <= i < |actions| && actions[i].Append? ==> actions[i].server in known
  }

  lemma {:induction false} RunBound(s: State, actions: seq<Action>)
    requires Consistent(s) && AllKnown(s) && IsRun(s, actions) && AppendsKnown(actions, s.known)
    ensures |actions| - Appends(actions) + Measure(Exec(s, actions)) <= Measure(s) + 17 * Appends(actions)
    decreases actions
  {
    if actions != [] {
      StepDecreases(s, actions[0]);
      KnownKept(s, actions[0]);
      ConsistencyKept(s, actions[0]);
      RunBound(Next(s, actions[0]), actions[1..]);
    }
  }

  /** For any appended jobs of known servers, any interleaving and any pattern of failures, a run takes
      at most 17 steps per appended job besides the appends. */
  lemma PipelineTerminates(known: set<string>, actions: seq<Action>)
    requires IsRun(Init(known), actions) && AppendsKnown(actions, known)
    ensures |actions| - Appends(actions) <= 17 * Appends(actions)
  {
    RunBound(Init(known), actions);
  }

  ghost predicate Finished(s: State) {
    forall a :: Enabled(s, a) ==> a.Append?
  }

  /** The pipeline stops only when every appended job, exactly once, has been notified. */
  lemma FinishedMeansNotified(known: set<string>, actions: seq<Action>, id: nat)
    requires IsRun(Init(known), actions) && Finished(Exec(Init(known), actions))
    requires id < Exec(Init(known), actions).appended
    ensures Weigh(Exec(Init(known), actions).notified, HasId(id)) == 1
  {
    ReachableStates(known, actions);
    var s := Exec(Init(known), actions);
    assert !Enabled(s, GetInput) && !Enabled(s, ProcessInput(0, true)) && !Enabled(s, HandleOutput(0));
    assert !Enabled(s, GetNotice) && !Enabled(s, Notify(0));
    assert Places(s, id) == 1;
  }

  // ---------- termination needs known servers ----------

  datatype Request = Request(server: string, did: string)

  function AppendAll(requests: seq<Request>): seq<Action> {
    if requests == [] then [] else [Append(requests[0].server, requests[0].did)] + AppendAll(requests[1..])
  }

  predicate NoAppends(actions: seq<Action>) {
    forall i :: 0 <= i < |actions| ==> !actions[i].Append?
  }

  ghost predicate RunsBounded(s: State) {
    exists bound: nat :: RunsBoundedBy(s, bound)
  }

  ghost predicate RunsBoundedBy(s: State, bound: nat) {
    forall actions :: IsRun(s, actions) && NoAppends(actions) ==> |actions| <= bound
  }

  lemma {:induction false} RunConcat(s: State, a: seq<Action>, b: seq<Action>)
    requires IsRun(s, a) && IsRun(Exec(s, a), b)
    ensures IsRun(s, a + b) && Exec(s, a + b) == Exec(Exec(s, a), b)
    decreases a
  {
    if a == [] {
      assert a + b == b;
    } else {
      assert (a + b)[1..] == a[1..] + b;
      RunConcat(Next(s, a[0]), a[1..], b);
    }
  }

  /** What stands in the input queue after appending. */
  function JobsOf(requests: seq<Request>, id: nat): seq<Job>
    decreases requests
  {
    if requests == [] then []
    else [NewJob(id, requests[0].server, requests[0].did)] + JobsOf(requests[1..], id + 1)
  }

  lemma {:induction false} JobsOfAt(requests: seq<Request>, id: nat, i: nat)
    requires i < |requests|
    ensures |JobsOf(requests, id)| == |requests|
    ensures JobsOf(requests, id)[i].info.server == requests[i].server
    decreases requests
  {
    if |requests| == 1 {
      assert JobsOf(requests[1..], id + 1) == [];
    } else {
      JobsOfAt(requests[1..], id + 1, if i == 0 then 0 else i - 1);
    }
  }

  lemma {:induction false} AppendAllRun(s: State, requests: seq<Request>)
    ensures IsRun(s, AppendAll(requests))
    ensures Exec(s, AppendAll(requests))
         == s.(toDownload := s.toDownload + JobsOf(requests, s.appended), appended := s.appended + |requests|)
    decreases requests
  {
    if requests == [] {
      assert s.toDownload + [] == s.toDownload;
    } else {
      var a := Append(requests[0].server, requests[0].did);
      var t := Next(s, a);
      assert AppendAll(requests)[1..] == AppendAll(requests[1..]);
      AppendAllRun(t, requests[1..]);
      Reassociate(s.toDownload, NewJob(s.appended, a.server, a.did), JobsOf(requests[1..], s.appended + 1));
    }
  }

  lemma Reassociate(a: seq<Job>, j: Job, b: seq<Job>)
    ensures a + [j] + b == a + ([j] + b)
  {
  }

  /** Workers may pick up everything in the input queue. */
  lemma {:induction false} PickAll(s: State) returns (actions: seq<Action>)
    ensures IsRun(s, actions) && NoAppends(actions)
    ensures Exec(s, actions) == s.(toDownload := [], picked := s.picked + s.toDownload)
    decreases |s.toDownload|
  {
    if s.toDownload == [] {
      actions := [];
      assert s.picked + [] == s.picked;
    } else {
      var t := Next(s, GetInput);
      var rest := PickAll(t);
      actions := [GetInput] + rest;
      assert actions[1..] == rest;
      assert t.picked + t.toDownload == s.picked + s.toDownload;
    }
  }

  lemma OneStep(s: State, a: Action)
    requires Enabled(s, a)
    ensures IsRun(s, [a]) && Exec(s, [a]) == Next(s, a)
  {
    assert [a][1..] == [];
    assert IsRun(Next(s, a), []);
  }

  lemma TwoSteps(s: State, a: Action, b: Action)
    requires Enabled(s, a) && Enabled(Next(s, a), b)
    ensures IsRun(s, [a, b]) && Exec(s, [a, b]) == Next(Next(s, a), b)
  {
    assert [a, b][1..] == [b];
    OneStep(Next(s, a), b);
  }

  /** A held job of an unknown server goes round and round. */
  lemma {:induction false} Spin(s: State, w: nat, rounds: nat) returns (actions: seq<Action>)
    requires s.toDownload == [] && s.processed == [] && w < |s.picked|
    requires Waiting(s.picked[w], s.known) && s.picked[w].info.server !in s.known
    ensures IsRun(s, actions) && NoAppends(actions) && |actions| == 3 * rounds
    decreases rounds
  {
    if rounds == 0 {
      actions := [];
    } else {
      var round := [ProcessInput(w, false), HandleOutput(0), GetInput];
      var j := Passed(s.picked[w], s.known, false);
      PassedJob(s.picked[w], s.known, false);
      assert !Leaves(j);
      var s1 := Next(s, round[0]);
      assert s1.processed == [j];
      var s2 := Next(s1, round[1]);
      assert s2.toDownload == [j];
      var s3 := Next(s2, round[2]);
      assert s3.toDownload == [] && s3.processed == [];
      OneStep(s2, GetInput);
      TwoSteps(s1, HandleOutput(0), GetInput);
      assert round[1..] == [HandleOutput(0), GetInput];
      assert IsRun(s, round) && Exec(s, round) == s3;
      var rest := Spin(s3, |s3.picked| - 1, rounds - 1);
      RunConcat(s, round, rest);
      actions := round + rest;
    }
  }

  /** The state once all requests are appended. */
  function After(known: set<string>, requests: seq<Request>): State {
    Init(known).(toDownload := JobsOf(requests, 0), appended := |requests|)
  }

  lemma AfterIsReached(known: set<string>, requests: seq<Request>)
    ensures IsRun(Init(known), AppendAll(requests))
    ensures Exec(Init(known), AppendAll(requests)) == After(known, requests)
    ensures Inv(After(known, requests))
  {
    AppendAllRun(Init(known), requests);
    RunKeepsInv(Init(known), AppendAll(requests));
    assert [] + JobsOf(requests, 0) == JobsOf(requests, 0);
  }

  lemma LongRun(known: set<string>, requests: seq<Request>, k: nat, bound: nat)
    requires k < |requests| && requests[k].server !in known
    ensures !RunsBoundedBy(After(known, requests), bound)
  {
    AfterIsReached(known, requests);
    var s := After(known, requests);
    JobsOfAt(requests, 0, k);
    var picks := PickAll(s);
    var t := Exec(s, picks);
    assert t.picked == s.toDownload;
    assert Waiting(s.toDownload[k], known);
    var spins := Spin(t, k, bound + 1);
    RunConcat(s, picks, spins);
    assert NoAppends(picks + spins);
    assert IsRun(s, picks + spins) && |picks + spins| > bound;
  }

  lemma {:induction false} NoAppendsCount(actions: seq<Action>)
    requires NoAppends(actions)
    ensures Appends(actions) == 0
  {
    if actions != [] {
      NoAppendsCount(actions[1..]);
    }
  }

  lemma KnownBound(known: set<string>, requests: seq<Request>)
    requires forall i :: 0 <= i < |requests| ==> requests[i].server in known
    ensures RunsBoundedBy(After(known, requests), Measure(After(known, requests)))
  {
    AfterIsReached(known, requests);
    var s := After(known, requests);
    forall i | 0 <= i < |s.toDownload|
      ensures s.toDownload[i].info.server in known
    {
      JobsOfLength(requests, 0);
      JobsOfAt(requests, 0, i);
    }
    forall actions | IsRun(s, actions) && NoAppends(actions)
      ensures |actions| <= Measure(s)
    {
      NoAppendsCount(actions);
      RunBound(s, actions);
    }
  }

  lemma {:induction false} JobsOfLength(requests: seq<Request>, id: nat)
    ensures |JobsOf(requests, id)| == |requests|
    decreases requests
  {
    if requests != [] {
      JobsOfLength(requests[1..], id + 1);
    }
  }

  /** The retry loop is bounded exactly when every server is known: with an unknown one the attempts
      are never counted and the job goes round for ever. */
  lemma TerminationNeedsKnownServers(known: set<string>, requests: seq<Request>)
    ensures RunsBounded(After(known, requests)) <==> forall i :: 0 <= i < |requests| ==> requests[i].server in known
  {
    if forall i :: 0 <= i < |requests| ==> requests[i].server in known {
      KnownBound(known, requests);
    } else {
      var k :| 0 <= k < |requests| && requests[k].server !in known;
      forall bound: nat
        ensures !RunsBoundedBy(After(known, requests), bound)
      {
        LongRun(known, requests, k, bound);
      }
    }
  }
}
