/** Settling a raid on chain: transactions per provider job, checkpointed to an artifact and
    resumed from it (apps/orchestrator/src/settlement-onchain-executor.ts). A transaction either
    succeeds or ends the run. */
module Settlement {
  import opened Options
  import opened Sequences

  type ProviderId = string

  datatype Kind = CreateJob | SetBudget | Fund | Link | Submit | Complete | Reject
  datatype Tx = CreateRaid | OfJob(kind: Kind, provider: ProviderId) | FinalizeRaid

  /** The position of a transaction in the log of the chain. */
  type Hash = nat

  datatype JobStatus = Open | Funded | Submitted | Completed | Rejected | Expired

  predicate TerminalJob(s: JobStatus) {
    s.Completed? || s.Rejected? || s.Expired?
  }

  /** What is owed to a provider; `budget` is in atomic units. */
  datatype Allocation = Allocation(provider: ProviderId, complete: bool, budget: int)

  /** A child job; `address` says whether the provider address is other than zero. */
  datatype Job = Job(provider: ProviderId, address: bool, status: JobStatus, jobId: Option<nat>, hashes: map<Kind, Hash>)

  datatype Lifecycle = Synthetic | Partial | Terminal
  datatype Artifact = Artifact(onchain: bool, status: Lifecycle, raidRef: nat, jobs: seq<Job>, finalizeHash: Option<Hash>,
                               hashes: seq<Hash>, jobIds: seq<nat>)

  datatype Config = Config(fundJobs: bool, requireTerminal: bool, actors: set<ProviderId>, known: set<ProviderId>,
                           evaluator: bool)

  // ----- one job: what is sent for it

  function AddressOf(c: Config, a: Allocation, e: Option<Job>): bool {
    if e.Some? then e.value.address else a.provider in c.actors || a.provider in c.known
  }

  predicate Has(e: Option<Job>, k: Kind) {
    e.Some? && k in e.value.hashes
  }

  predicate Fundable(c: Config, a: Allocation, e: Option<Job>) {
    a.complete && a.budget > 0 && c.fundJobs && AddressOf(c, a, e)
  }

  /** A transaction of this kind is wanted and not on record yet. */
  predicate Wanted(c: Config, a: Allocation, e: Option<Job>, k: Kind) {
    && !(if k.CreateJob? then e.Some? && e.value.jobId.Some? else Has(e, k))
    && match k
       case CreateJob => true
       case SetBudget => a.complete && a.budget > 0
       case Fund => Fundable(c, a, e)
       case Link => true
       case Reject => !a.complete
       case Submit => Fundable(c, a, e) && a.provider in c.actors
       case Complete => Fundable(c, a, e) && (Has(e, Submit) || a.provider in c.actors) && c.evaluator
  }

  function If(k: Kind, wanted: bool): seq<Kind> {
    if wanted then [k] else []
  }

  const ORDER: seq<Kind> := [CreateJob, SetBudget, Fund, Link, Reject, Submit, Complete]

  /** The first `n` kinds, of those wanted. */
  function PlanUpTo(c: Config, a: Allocation, e: Option<Job>, n: nat): seq<Kind>
    requires n <= |ORDER|
  {
    if n == 0 then [] else PlanUpTo(c, a, e, n - 1) + If(ORDER[n - 1], Wanted(c, a, e, ORDER[n - 1]))
  }

  function Plan(c: Config, a: Allocation, e: Option<Job>): seq<Kind> {
    PlanUpTo(c, a, e, |ORDER|)
  }

  function StatusOn(s: JobStatus, k: Kind): JobStatus {
    match k
    case Fund => Funded
    case Submit => Submitted
    case Complete => Completed
    case Reject => Rejected
    case _ => s
  }

  /** The job with one more transaction on record. */
  function Record(job: Job, k: Kind, h: Hash): Job {
    job.(hashes := job.hashes[k := h], status := StatusOn(job.status, k), jobId := if k.CreateJob? then Some(h) else job.jobId)
  }

  /** The job with these transactions on record, sent one after the other from `base` on. */
  function RecordAll(job: Job, kinds: seq<Kind>, base: Hash): Job {
    if kinds == [] then job
    else Record(RecordAll(job, kinds[..|kinds| - 1], base), kinds[|kinds| - 1], base + |kinds| - 1)
  }

  function Begin(c: Config, a: Allocation, e: Option<Job>): Job {
    Job(a.provider, AddressOf(c, a, e), if e.Some? then e.value.status else Open,
        if e.Some? then e.value.jobId else None, if e.Some? then e.value.hashes else map[])
  }

  function Processed(c: Config, a: Allocation, e: Option<Job>, base: Hash): Job {
    RecordAll(Begin(c, a, e), Plan(c, a, e), base)
  }

  function Txs(kinds: seq<Kind>, p: ProviderId): (txs: seq<Tx>)
    ensures |txs| == |kinds|
  {
    seq(|kinds|, i requires 0 <= i < |kinds| => OfJob(kinds[i], p))
  }

  function Positions(base: Hash, n: nat): (hs: seq<Hash>)
    ensures |hs| == n && forall h :: h in hs <==> base <= h < base + n
  {
    if n == 0 then [] else Positions(base, n - 1) + [base + n - 1]
  }

  // ----- what the plan is worth

  lemma PlanMembers(c: Config, a: Allocation, e: Option<Job>, n: nat, k: Kind)
    requires n <= |ORDER|
    ensures k in PlanUpTo(c, a, e, n) <==> k in ORDER[..n] && Wanted(c, a, e, k)
  {
    hide Wanted;
    if n > 0 {
      PlanMembers(c, a, e, n - 1, k);
      assert ORDER[..n] == ORDER[..n - 1] + [ORDER[n - 1]];
    }
  }

  lemma PlanIs(c: Config, a: Allocation, e: Option<Job>, k: Kind)
    ensures k in Plan(c, a, e) <==> Wanted(c, a, e, k)
  {
    PlanMembers(c, a, e, |ORDER|, k);
    assert ORDER[..|ORDER|] == ORDER;
    assert k in ORDER by {
      match k
      case CreateJob => assert ORDER[0] == k;
      case SetBudget => assert ORDER[1] == k;
      case Fund => assert ORDER[2] == k;
      case Link => assert ORDER[3] == k;
      case Reject => assert ORDER[4] == k;
      case Submit => assert ORDER[5] == k;
      case Complete => assert ORDER[6] == k;
    }
  }

  lemma PlanOnce(c: Config, a: Allocation, e: Option<Job>, n: nat, k: Kind)
    requires n <= |ORDER|
    ensures multiset(PlanUpTo(c, a, e, n))[k] <= 1
  {
    hide Wanted;
    if n > 0 {
      PlanOnce(c, a, e, n - 1, k);
      PlanMembers(c, a, e, n - 1, ORDER[n - 1]);
      OrderDistinct(n);
    }
  }

  lemma OrderDistinct(n: nat)
    requires 0 < n <= |ORDER|
    ensures ORDER[n - 1] !in ORDER[..n - 1]
  {
  }

  lemma {:induction false} TxsCount(kinds: seq<Kind>, p: ProviderId, k: Kind, q: ProviderId)
    ensures multiset(Txs(kinds, p))[OfJob(k, q)] == if q == p then multiset(kinds)[k] else 0
    ensures multiset(Txs(kinds, p))[CreateRaid] == 0 && multiset(Txs(kinds, p))[FinalizeRaid] == 0
  {
    if kinds != [] {
      var n := |kinds| - 1;
      TxsCount(kinds[..n], p, k, q);
      assert kinds == kinds[..n] + [kinds[n]];
      assert Txs(kinds, p) == Txs(kinds[..n], p) + [OfJob(kinds[n], p)];
    }
  }

  lemma {:induction false} RecordAllHashes(job: Job, kinds: seq<Kind>, base: Hash, k: Kind)
    ensures var r := RecordAll(job, kinds, base);
            && r.provider == job.provider && r.address == job.address
            && (k in r.hashes <==> k in job.hashes || k in kinds)
            && (k in r.hashes ==>
                  if k in kinds then base <= r.hashes[k] < base + |kinds| && kinds[r.hashes[k] - base] == k
                  else r.hashes[k] == job.hashes[k])
            && (r.jobId.Some? <==> job.jobId.Some? || CreateJob in kinds)
  {
    if kinds != [] {
      var n := |kinds| - 1;
      RecordAllHashes(job, kinds[..n], base, k);
      assert kinds == kinds[..n] + [kinds[n]];
    }
  }

  /** The status says how far the transactions on record have got. */
  predicate JobOk(a: Allocation, job: Job) {
    && job.provider == a.provider && job.jobId.Some? && CreateJob in job.hashes && Link in job.hashes
    && (Fund in job.hashes || Submit in job.hashes || Complete in job.hashes ==> a.complete && a.budget > 0 && Fund in job.hashes && SetBudget in job.hashes)
    && (Complete in job.hashes ==> Submit in job.hashes)
    && (Reject in job.hashes <==> !a.complete)
    && job.status ==
         if Complete in job.hashes then Completed
         else if Submit in job.hashes then Submitted
         else if Fund in job.hashes then Funded
         else if Reject in job.hashes then Rejected
         else Open
  }

  /** Only forward: from open to funded to submitted to completed, or from open to rejected. */
  predicate Forward(s: JobStatus, t: JobStatus) {
    s == t || (s.Open? && !t.Expired?) || (s.Funded? && (t.Submitted? || t.Completed?)) || (s.Submitted? && t.Completed?)
  }

  lemma {:induction false} StatusAfter(job: Job, kinds: seq<Kind>, base: Hash)
    ensures RecordAll(job, kinds, base).status == StatusOnAll(job.status, kinds)
  {
    if kinds != [] {
      StatusAfter(job, kinds[..|kinds| - 1], base);
    }
  }

  function StatusOnAll(s: JobStatus, kinds: seq<Kind>): JobStatus {
    if kinds == [] then s else StatusOn(StatusOnAll(s, kinds[..|kinds| - 1]), kinds[|kinds| - 1])
  }

  lemma StatusStep(c: Config, a: Allocation, e: Option<Job>, s: JobStatus, n: nat)
    requires n < |ORDER|
    ensures StatusOnAll(s, PlanUpTo(c, a, e, 0)) == s
    ensures var before := StatusOnAll(s, PlanUpTo(c, a, e, n));
            StatusOnAll(s, PlanUpTo(c, a, e, n + 1)) == if Wanted(c, a, e, ORDER[n]) then StatusOn(before, ORDER[n]) else before
  {
    hide Wanted;
    var done := PlanUpTo(c, a, e, n);
    if Wanted(c, a, e, ORDER[n]) {
      assert (done + [ORDER[n]])[..|done|] == done;
    } else {
      assert done + [] == done;
    }
  }

  /** The status after a plan: the furthest that was wanted. */
  lemma PlanStatus(c: Config, a: Allocation, e: Option<Job>, s: JobStatus)
    ensures StatusOnAll(s, Plan(c, a, e)) ==
            if Wanted(c, a, e, Complete) then Completed
            else if Wanted(c, a, e, Submit) then Submitted
            else if Wanted(c, a, e, Reject) then Rejected
            else if Wanted(c, a, e, Fund) then Funded
            else s
  {
    hide Wanted, PlanUpTo, StatusOnAll;
    StatusStep(c, a, e, s, 0);
    StatusStep(c, a, e, s, 1);
    StatusStep(c, a, e, s, 2);
    StatusStep(c, a, e, s, 3);
    StatusStep(c, a, e, s, 4);
    StatusStep(c, a, e, s, 5);
    StatusStep(c, a, e, s, 6);
  }

  /** Processing keeps a job right, never sends what is on record, records all it sends, and
      moves the status only forward. */
  lemma ProcessedOk(c: Config, a: Allocation, e: Option<Job>, base: Hash)
    requires e.Some? ==> JobOk(a, e.value)
    ensures JobOk(a, Processed(c, a, e, base))
    ensures forall k :: k in Plan(c, a, e) ==> !Has(e, k)
    ensures forall k :: k in Processed(c, a, e, base).hashes <==> Has(e, k) || k in Plan(c, a, e)
    ensures e.Some? ==> Forward(e.value.status, Processed(c, a, e, base).status)
  {
    hide Plan;
    forall k
      ensures k in Plan(c, a, e) <==> Wanted(c, a, e, k)
      ensures k in Processed(c, a, e, base).hashes <==> Has(e, k) || k in Plan(c, a, e)
    {
      PlanIs(c, a, e, k);
      RecordAllHashes(Begin(c, a, e), Plan(c, a, e), base, k);
    }
    RecordAllHashes(Begin(c, a, e), Plan(c, a, e), base, CreateJob);
    StatusAfter(Begin(c, a, e), Plan(c, a, e), base);
    PlanStatus(c, a, e, Begin(c, a, e).status);
  }

  // ----- what a configuration leads to

  /** Whether the provider has an address: the one on record, or else one that is configured. */
  predicate HasAddress(c: Config, a: Allocation, e: Option<Job>) {
    match e
    case Some(job) => job.address
    case None => a.provider in c.actors || a.provider in c.known
  }

  /** What is not sent for an allocation: no money moves while funding is switched off, for a rejected
      or unbudgeted one, or without an address; only an actor of the provider submits; only an
      evaluator completes; and nothing that is on record is sent again. */
  predicate Allowed(c: Config, a: Allocation, e: Option<Job>, sent: seq<Tx>) {
    && (!c.fundJobs || !a.complete || a.budget <= 0 || !HasAddress(c, a, e) ==>
          OfJob(Fund, a.provider) !in sent && OfJob(Submit, a.provider) !in sent && OfJob(Complete, a.provider) !in sent)
    && (a.provider !in c.actors ==> OfJob(Submit, a.provider) !in sent)
    && (!c.evaluator ==> OfJob(Complete, a.provider) !in sent)
    && (!a.complete || a.budget <= 0 ==> OfJob(SetBudget, a.provider) !in sent)
    && (a.complete ==> OfJob(Reject, a.provider) !in sent)
    && (e.Some? && e.value.jobId.Some? ==> OfJob(CreateJob, a.provider) !in sent)
    && forall k :: e.Some? && k in e.value.hashes && k != CreateJob ==> OfJob(k, a.provider) !in sent
  }

  /** What a processed job comes to: it is created and linked; a rejected one is rejected; one that
      is complete and has a budget has it set, and goes as far as funding, provider and evaluator
      take it; any other stays where it was. */
  predicate Fulfilled(c: Config, a: Allocation, e: Option<Job>, job: Job) {
    && job.provider == a.provider && job.address == HasAddress(c, a, e)
    && job.jobId.Some? && CreateJob in job.hashes && Link in job.hashes
    && (Reject in job.hashes <==> !a.complete)
    && (a.complete && a.budget > 0 ==> SetBudget in job.hashes)
    && job.status ==
         if !a.complete then Rejected
         else if a.budget <= 0 || !c.fundJobs || !HasAddress(c, a, e) then (if e.Some? then e.value.status else Open)
         else if e.Some? && e.value.status.Completed? then Completed
         else if a.provider !in c.actors && !(e.Some? && e.value.status.Submitted?) then Funded
         else if c.evaluator then Completed
         else Submitted
  }

  lemma PlanAllowed(c: Config, a: Allocation, e: Option<Job>, sent: seq<Tx>)
    requires forall k :: OfJob(k, a.provider) in sent ==> Wanted(c, a, e, k)
    ensures Allowed(c, a, e, sent)
  {
  }

  lemma ProcessedFulfils(c: Config, a: Allocation, e: Option<Job>, base: Hash)
    requires e.Some? ==> JobOk(a, e.value)
    ensures Fulfilled(c, a, e, Processed(c, a, e, base))
  {
    hide Plan;
    forall k
      ensures k in Plan(c, a, e) <==> Wanted(c, a, e, k)
      ensures k in Processed(c, a, e, base).hashes <==> Has(e, k) || k in Plan(c, a, e)
    {
      PlanIs(c, a, e, k);
      RecordAllHashes(Begin(c, a, e), Plan(c, a, e), base, k);
    }
    RecordAllHashes(Begin(c, a, e), Plan(c, a, e), base, CreateJob);
    StatusAfter(Begin(c, a, e), Plan(c, a, e), base);
    PlanStatus(c, a, e, Begin(c, a, e).status);
  }

  lemma PlanSends(c: Config, a: Allocation, e: Option<Job>, n: nat)
    requires n <= |Plan(c, a, e)|
    ensures Allowed(c, a, e, Txs(Plan(c, a, e)[..n], a.provider))
  {
    hide Plan, Wanted;
    var sent := Txs(Plan(c, a, e)[..n], a.provider);
    forall k | OfJob(k, a.provider) in sent
      ensures Wanted(c, a, e, k)
    {
      var i: nat :| i < n && sent[i] == OfJob(k, a.provider);
      PlanIs(c, a, e, k);
    }
    PlanAllowed(c, a, e, sent);
  }

  /** How a plan is carried out, or up to where it is. */
  lemma Carried(c: Config, a: Allocation, e: Option<Job>, result: Option<Job>, before: seq<Tx>, chain: seq<Tx>,
                stored: seq<Hash>, hashes: seq<Hash>)
    requires result.None? ==> Interrupted(before, chain, Plan(c, a, e), a.provider)
    requires result.Some? ==> At(c, a, e, |ORDER|, result.value, before, chain, stored, hashes)
    ensures before <= chain && Allowed(c, a, e, chain[|before|..])
    ensures var plan := Plan(c, a, e);
            if result.None? then Interrupted(before, chain, plan, a.provider)
            else && chain == before + Txs(plan, a.provider) && hashes == stored + Positions(|before|, |plan|)
                 && result.value == Processed(c, a, e, |before|)
    ensures result.Some? && (e.Some? ==> JobOk(a, e.value)) ==> Fulfilled(c, a, e, result.value)
    ensures LogOrdered(before) && Recorded(e, a.provider, before) ==> LogOrdered(chain)
  {
    hide Allowed, Fulfilled, LogOrdered, Recorded, JobOk, PlanUpTo, Txs, RecordAll, Begin, Positions;
    var plan := Plan(c, a, e);
    var n := |plan|;
    if result.None? {
      n :| 0 <= n < |plan| && chain == before + Txs(plan[..n], a.provider);
    } else {
      assert plan[..n] == plan;
      if e.Some? ==> JobOk(a, e.value) {
        ProcessedFulfils(c, a, e, |before|);
      }
    }
    PlanSends(c, a, e, n);
    assert chain[|before|..] == Txs(plan[..n], a.provider);
    if LogOrdered(before) && Recorded(e, a.provider, before) {
      PlanOrdered(c, a, e, |ORDER|, before);
      TxsPrefix(plan, n, a.provider);
      OrderedPrefix(chain, before + Txs(plan, a.provider));
    }
  }

  lemma TxsPrefix(kinds: seq<Kind>, n: nat, p: ProviderId)
    requires n <= |kinds|
    ensures Txs(kinds[..n], p) <= Txs(kinds, p)
  {
    assert Txs(kinds[..n], p) == Txs(kinds, p)[..n];
  }

  /** In the log every transaction of a job follows its creation, funding follows the budget,
      submitting follows funding, and completing follows submitting. */
  predicate LogOrdered(chain: seq<Tx>) {
    forall j :: 0 <= j < |chain| && chain[j].OfJob? ==> Follows(chain[..j], chain[j].kind, chain[j].provider)
  }

  predicate Follows(before: seq<Tx>, k: Kind, p: ProviderId) {
    && (!k.CreateJob? ==> OfJob(CreateJob, p) in before)
    && (k.Fund? ==> OfJob(SetBudget, p) in before)
    && (k.Submit? ==> OfJob(Fund, p) in before)
    && (k.Complete? ==> OfJob(Submit, p) in before)
  }

  lemma OrderedPrefix(chain: seq<Tx>, whole: seq<Tx>)
    requires chain <= whole && LogOrdered(whole)
    ensures LogOrdered(chain)
  {
    hide Follows;
    forall j | 0 <= j < |chain| && chain[j].OfJob?
      ensures Follows(chain[..j], chain[j].kind, chain[j].provider)
    {
      assert chain[..j] == whole[..j] && chain[j] == whole[j];
    }
  }

  lemma OrderedMore(chain: seq<Tx>, tx: Tx)
    requires LogOrdered(chain) && (tx.OfJob? ==> Follows(chain, tx.kind, tx.provider))
    ensures LogOrdered(chain + [tx])
  {
    hide Follows;
    forall j | 0 <= j < |chain + [tx]| && (chain + [tx])[j].OfJob?
      ensures Follows((chain + [tx])[..j], (chain + [tx])[j].kind, (chain + [tx])[j].provider)
    {
      if j < |chain| {
        assert (chain + [tx])[..j] == chain[..j] && (chain + [tx])[j] == chain[j];
      } else {
        assert (chain + [tx])[..j] == chain;
      }
    }
  }

  /** What a job has on record was sent. */
  predicate Recorded(e: Option<Job>, p: ProviderId, chain: seq<Tx>) {
    e.Some? ==>
      && (e.value.jobId.Some? ==> OfJob(CreateJob, p) in chain)
      && forall k :: k in e.value.hashes ==> OfJob(k, p) in chain
  }

  /** A kind that is wanted follows what it needs, be it on record or sent just before. */
  lemma WantedFollows(c: Config, a: Allocation, e: Option<Job>, n: nat, before: seq<Tx>)
    requires n < |ORDER| && Wanted(c, a, e, ORDER[n])
    requires forall i :: 0 <= i < n && Wanted(c, a, e, ORDER[i]) ==> OfJob(ORDER[i], a.provider) in before
    requires Recorded(e, a.provider, before)
    ensures Follows(before, ORDER[n], a.provider)
  {
    assert ORDER[0] == CreateJob && ORDER[1] == SetBudget && ORDER[2] == Fund && ORDER[5] == Submit && ORDER[6] == Complete;
    if n > 0 {
      assert Wanted(c, a, e, ORDER[0]) || e.value.jobId.Some?;
    }
    if ORDER[n].Fund? {
      assert Wanted(c, a, e, ORDER[1]) || SetBudget in e.value.hashes;
    } else if ORDER[n].Submit? {
      assert Wanted(c, a, e, ORDER[2]) || Fund in e.value.hashes;
    } else if ORDER[n].Complete? {
      assert Wanted(c, a, e, ORDER[5]) || Submit in e.value.hashes;
    }
  }

  lemma {:induction false} PlanOrdered(c: Config, a: Allocation, e: Option<Job>, n: nat, chain: seq<Tx>)
    requires n <= |ORDER| && LogOrdered(chain) && Recorded(e, a.provider, chain)
    ensures LogOrdered(chain + Txs(PlanUpTo(c, a, e, n), a.provider))
  {
    hide Wanted, LogOrdered, Follows, Recorded;
    if n == 0 {
      assert chain + Txs(PlanUpTo(c, a, e, 0), a.provider) == chain;
    } else {
      PlanOrdered(c, a, e, n - 1, chain);
      var done := PlanUpTo(c, a, e, n - 1);
      var before := chain + Txs(done, a.provider);
      if Wanted(c, a, e, ORDER[n - 1]) {
        forall i | 0 <= i < n - 1 && Wanted(c, a, e, ORDER[i])
          ensures OfJob(ORDER[i], a.provider) in before
        {
          PlanMembers(c, a, e, n - 1, ORDER[i]);
          assert ORDER[i] in ORDER[..n - 1];
          TxsMembers(done, a.provider, ORDER[i]);
        }
        RecordedMore(e, a.provider, chain, Txs(done, a.provider));
        WantedFollows(c, a, e, n - 1, before);
        OrderedMore(before, OfJob(ORDER[n - 1], a.provider));
        assert Txs(done + [ORDER[n - 1]], a.provider) == Txs(done, a.provider) + [OfJob(ORDER[n - 1], a.provider)];
        assert before + [OfJob(ORDER[n - 1], a.provider)] == chain + Txs(PlanUpTo(c, a, e, n), a.provider);
      } else {
        assert PlanUpTo(c, a, e, n) == done;
      }
    }
  }

  lemma TxsMembers(kinds: seq<Kind>, p: ProviderId, k: Kind)
    ensures OfJob(k, p) in Txs(kinds, p) <==> k in kinds
  {
    if k in kinds {
      var i: nat :| i < |kinds| && kinds[i] == k;
      assert Txs(kinds, p)[i] == OfJob(k, p);
    }
  }

  lemma RecordedMore(e: Option<Job>, p: ProviderId, chain: seq<Tx>, more: seq<Tx>)
    requires Recorded(e, p, chain)
    ensures Recorded(e, p, chain + more)
  {
  }

  // ----- all jobs of a raid

  type Stored = map<ProviderId, Job>

  function ByProvider(jobs: seq<Job>): Stored {
    if jobs == [] then map[] else ByProvider(jobs[..|jobs| - 1])[jobs[|jobs| - 1].provider := jobs[|jobs| - 1]]
  }

  function Lookup(stored: Stored, p: ProviderId): Option<Job> {
    if p in stored then Some(stored[p]) else None
  }

  /** A stored terminal job is kept as it is. */
  predicate Skipped(stored: Stored, p: ProviderId) {
    p in stored && TerminalJob(stored[p].status)
  }

  /** The transactions for the allocations, in order. */
  function TxsOf(c: Config, allocations: seq<Allocation>, stored: Stored): seq<Tx> {
    if allocations == [] then []
    else
      var a := allocations[|allocations| - 1];
      TxsOf(c, allocations[..|allocations| - 1], stored)
      + if Skipped(stored, a.provider) then [] else Txs(Plan(c, a, Lookup(stored, a.provider)), a.provider)
  }

  /** The jobs after that, the first transaction having position `base`. */
  function JobsOf(c: Config, allocations: seq<Allocation>, stored: Stored, base: Hash): (jobs: seq<Job>)
    ensures |jobs| == |allocations|
  {
    if allocations == [] then []
    else
      var n := |allocations| - 1;
      var a := allocations[n];
      JobsOf(c, allocations[..n], stored, base)
      + [if Skipped(stored, a.provider) then stored[a.provider]
         else Processed(c, a, Lookup(stored, a.provider), base + |TxsOf(c, allocations[..n], stored)|)]
  }

  predicate AllTerminal(jobs: seq<Job>) {
    forall i :: 0 <= i < |jobs| ==> TerminalJob(jobs[i].status)
  }

  // ----- the executor

  /** `OnchainExecutionState` */
  class ExecutionState {
    const raidRef: nat
    var hashes: seq<Hash>
    var jobs: seq<Job>
    var jobIds: seq<nat>
    var finalizeHash: Option<Hash>

    constructor (raidRef: nat, hashes: seq<Hash>, jobIds: seq<nat>, finalizeHash: Option<Hash>)
      ensures this.raidRef == raidRef && this.hashes == hashes && this.jobIds == jobIds
      ensures this.finalizeHash == finalizeHash && jobs == []
    {
      this.raidRef, this.hashes, this.jobIds, this.finalizeHash, jobs := raidRef, hashes, jobIds, finalizeHash, [];
    }

    /** `buildArtifact` */
    function Snapshot(status: Lifecycle): Artifact
      reads this
    {
      Artifact(true, status, raidRef, jobs, finalizeHash, hashes, jobIds)
    }
  }

  lemma StepOf(job: Job, kinds: seq<Kind>, k: Kind, base: Hash)
    ensures RecordAll(job, kinds + [k], base) == Record(RecordAll(job, kinds, base), k, base + |kinds|)
    ensures Positions(base, |kinds + [k]|) == Positions(base, |kinds|) + [base + |kinds|]
    ensures forall p :: Txs(kinds + [k], p) == Txs(kinds, p) + [OfJob(k, p)]
  {
    assert (kinds + [k])[..|kinds|] == kinds;
    forall p
      ensures Txs(kinds + [k], p) == Txs(kinds, p) + [OfJob(k, p)]
    {
    }
  }

  // ----- what is on record of what was sent

  predicate DistinctProviders(allocations: seq<Allocation>) {
    forall i, j :: 0 <= i < j < |allocations| ==> allocations[i].provider != allocations[j].provider
  }

  type View = seq<Option<Job>>

  /** The job of each allocation, as far as there is one. */
  function ViewOf(allocations: seq<Allocation>, jobs: seq<Job>): (v: View)
    ensures |v| == |allocations|
  {
    seq(|allocations|, i requires 0 <= i < |allocations| => if i < |jobs| then Some(jobs[i]) else None)
  }

  /** The jobs are right, and their transactions are on record exactly once: each is in the log
      where the job says it is, and there is no other. */
  ghost predicate Balanced(allocations: seq<Allocation>, chain: seq<Tx>, v: View) {
    && |v| == |allocations|
    && (forall i :: 0 <= i < |v| && v[i].Some? ==> JobOk(allocations[i], v[i].value))
    && (forall i, k :: 0 <= i < |v| ==>
          multiset(chain)[OfJob(k, allocations[i].provider)] == if Has(v[i], k) then 1 else 0)
    && forall i, k :: 0 <= i < |v| && Has(v[i], k) ==>
          var h := v[i].value.hashes[k]; h < |chain| && chain[h] == OfJob(k, allocations[i].provider)
  }

  /** All hashes of the artifact are listed in it. */
  predicate Listed(jobs: seq<Job>, finalizeHash: Option<Hash>, hashes: seq<Hash>) {
    && (forall i, k :: 0 <= i < |jobs| && k in jobs[i].hashes ==> jobs[i].hashes[k] in hashes)
    && (finalizeHash.Some? ==> finalizeHash.value in hashes)
  }

  /** The artifact tells everything the chain has seen. */
  ghost predicate Faithful(allocations: seq<Allocation>, chain: seq<Tx>, art: Artifact) {
    && |art.jobs| <= |allocations| && Balanced(allocations, chain, ViewOf(allocations, art.jobs))
    && multiset(chain)[CreateRaid] == 1
    && multiset(chain)[FinalizeRaid] == (if art.finalizeHash.Some? then 1 else 0)
    && Listed(art.jobs, art.finalizeHash, art.hashes)
  }

  /** Nothing was sent twice. */
  ghost predicate AtMostOnce(allocations: seq<Allocation>, chain: seq<Tx>) {
    && multiset(chain)[CreateRaid] <= 1 && multiset(chain)[FinalizeRaid] <= 1
    && forall i, k :: 0 <= i < |allocations| ==> multiset(chain)[OfJob(k, allocations[i].provider)] <= 1
  }

  lemma FaithfulOnce(allocations: seq<Allocation>, chain: seq<Tx>, art: Artifact)
    requires Faithful(allocations, chain, art)
    ensures AtMostOnce(allocations, chain)
  {
  }

  lemma OnceBefore(allocations: seq<Allocation>, chain: seq<Tx>, n: nat)
    requires AtMostOnce(allocations, chain) && n <= |chain|
    ensures AtMostOnce(allocations, chain[..n])
  {
    assert chain == chain[..n] + chain[n..];
  }

  /** One allocation carried out. */
  lemma BalancedNext(c: Config, allocations: seq<Allocation>, chain: seq<Tx>, v: View, i: nat)
    requires DistinctProviders(allocations) && Balanced(allocations, chain, v) && i < |allocations|
    ensures var a := allocations[i];
            Balanced(allocations, chain + Txs(Plan(c, a, v[i]), a.provider), v[i := Some(Processed(c, a, v[i], |chain|))])
  {
    hide JobOk, Plan, Processed, Txs;
    var a := allocations[i];
    var plan := Plan(c, a, v[i]);
    var v' := v[i := Some(Processed(c, a, v[i], |chain|))];
    var chain' := chain + Txs(plan, a.provider);
    ProcessedOk(c, a, v[i], |chain|);
    forall j, k | 0 <= j < |v|
      ensures multiset(chain')[OfJob(k, allocations[j].provider)] == if Has(v'[j], k) then 1 else 0
    {
      TxsCount(plan, a.provider, k, allocations[j].provider);
      PlanCount(c, a, v[i], k);
    }
    forall j, k | 0 <= j < |v| && Has(v'[j], k)
      ensures var h := v'[j].value.hashes[k]; h < |chain'| && chain'[h] == OfJob(k, allocations[j].provider)
    {
      if j == i {
        ProcessedHash(c, a, v[i], chain, k);
      } else {
        var h := v[j].value.hashes[k];
        assert h < |chain| && chain[h] == OfJob(k, allocations[j].provider);
        assert chain'[h] == chain[h];
      }
    }
  }

  lemma PlanCount(c: Config, a: Allocation, e: Option<Job>, k: Kind)
    ensures multiset(Plan(c, a, e))[k] == if k in Plan(c, a, e) then 1 else 0
  {
    PlanOnce(c, a, e, |ORDER|, k);
    if k in Plan(c, a, e) {
      assert k in multiset(Plan(c, a, e));
    }
  }

  /** A hash on record is the position of its transaction. */
  lemma ProcessedHash(c: Config, a: Allocation, e: Option<Job>, chain: seq<Tx>, k: Kind)
    requires Has(e, k) ==> e.value.hashes[k] < |chain| && chain[e.value.hashes[k]] == OfJob(k, a.provider)
    requires k in Processed(c, a, e, |chain|).hashes
    ensures var h := Processed(c, a, e, |chain|).hashes[k];
            var chain' := chain + Txs(Plan(c, a, e), a.provider);
            h < |chain'| && chain'[h] == OfJob(k, a.provider)
  {
    hide Plan;
    RecordAllHashes(Begin(c, a, e), Plan(c, a, e), |chain|, k);
  }

  /** The view after the first `n` allocations. */
  function ViewAt(c: Config, allocations: seq<Allocation>, stored: Stored, base: Hash, v: View, n: nat): (w: View)
    requires n <= |allocations| == |v|
    ensures |w| == |v|
  {
    seq(|v|, i requires 0 <= i < |v| => if i < n then Some(JobsOf(c, allocations[..n], stored, base)[i]) else v[i])
  }

  /** The stored jobs are those of the view. */
  predicate StoredIs(allocations: seq<Allocation>, stored: Stored, v: View) {
    |v| == |allocations| && forall i :: 0 <= i < |v| ==> Lookup(stored, allocations[i].provider) == v[i]
  }

  lemma {:induction false} BalancedAt(c: Config, allocations: seq<Allocation>, stored: Stored, chain: seq<Tx>, v: View, n: nat)
    requires DistinctProviders(allocations) && Balanced(allocations, chain, v) && StoredIs(allocations, stored, v) && n <= |allocations|
    ensures Balanced(allocations, chain + TxsOf(c, allocations[..n], stored), ViewAt(c, allocations, stored, |chain|, v, n))
    decreases n
  {
    hide Balanced, Plan, Processed, Txs;
    if n == 0 {
      assert chain + [] == chain;
      assert ViewAt(c, allocations, stored, |chain|, v, 0) == v;
    } else {
      BalancedAt(c, allocations, stored, chain, v, n - 1);
      var a := allocations[n - 1];
      var chain1 := chain + TxsOf(c, allocations[..n - 1], stored);
      var v1 := ViewAt(c, allocations, stored, |chain|, v, n - 1);
      ViewStep(c, allocations, stored, chain, v, n);
      if !Skipped(stored, a.provider) {
        BalancedNext(c, allocations, chain1, v1, n - 1);
      }
    }
  }

  lemma ViewStep(c: Config, allocations: seq<Allocation>, stored: Stored, chain: seq<Tx>, v: View, n: nat)
    requires StoredIs(allocations, stored, v) && 0 < n <= |allocations|
    ensures var a := allocations[n - 1];
            var chain1 := chain + TxsOf(c, allocations[..n - 1], stored);
            var v1 := ViewAt(c, allocations, stored, |chain|, v, n - 1);
            var chain2 := chain + TxsOf(c, allocations[..n], stored);
            var v2 := ViewAt(c, allocations, stored, |chain|, v, n);
            && v1[n - 1] == v[n - 1]
            && if Skipped(stored, a.provider) then chain2 == chain1 && v2 == v1
               else && chain2 == chain1 + Txs(Plan(c, a, v1[n - 1]), a.provider)
                    && v2 == v1[n - 1 := Some(Processed(c, a, v1[n - 1], |chain1|))]
  {
    hide Plan, Processed, Txs;
    var a := allocations[n - 1];
    assert allocations[..n][..n - 1] == allocations[..n - 1];
    var v1 := ViewAt(c, allocations, stored, |chain|, v, n - 1);
    var v2 := ViewAt(c, allocations, stored, |chain|, v, n);
    var last := JobsOf(c, allocations[..n], stored, |chain|)[n - 1];
    assert JobsOf(c, allocations[..n], stored, |chain|) == JobsOf(c, allocations[..n - 1], stored, |chain|) + [last];
    assert v2 == v1[n - 1 := Some(last)];
    if Skipped(stored, a.provider) {
      assert v1[n - 1] == Some(last);
      assert v2 == v1;
    }
  }

  lemma {:induction false} ListedAt(c: Config, allocations: seq<Allocation>, stored: Stored, base: Hash, hashes: seq<Hash>)
    requires forall p, k :: p in stored && k in stored[p].hashes ==> stored[p].hashes[k] in hashes
    ensures forall fin: Option<Hash> ::
              (fin.Some? ==> fin.value in hashes) ==>
              Listed(JobsOf(c, allocations, stored, base), fin, hashes + Positions(base, |TxsOf(c, allocations, stored)|))
  {
    hide Plan, Txs;
    if allocations != [] {
      var n := |allocations| - 1;
      var a := allocations[n];
      ListedAt(c, allocations[..n], stored, base, hashes);
      assert Listed(JobsOf(c, allocations[..n], stored, base), None, hashes + Positions(base, |TxsOf(c, allocations[..n], stored)|));
      var job := JobsOf(c, allocations, stored, base)[n];
      forall k | k in job.hashes
        ensures job.hashes[k] in hashes + Positions(base, |TxsOf(c, allocations, stored)|)
      {
        if !Skipped(stored, a.provider) {
          var e := Lookup(stored, a.provider);
          RecordAllHashes(Begin(c, a, e), Plan(c, a, e), base + |TxsOf(c, allocations[..n], stored)|, k);
        }
      }
    }
  }

  lemma {:induction false} StoredJobs(allocations: seq<Allocation>, jobs: seq<Job>)
    requires DistinctProviders(allocations) && |jobs| <= |allocations|
    requires forall i :: 0 <= i < |jobs| ==> jobs[i].provider == allocations[i].provider
    ensures StoredIs(allocations, ByProvider(jobs), ViewOf(allocations, jobs))
    ensures forall p :: p in ByProvider(jobs) ==> ByProvider(jobs)[p] in jobs
  {
    if jobs != [] {
      var n := |jobs| - 1;
      StoredJobs(allocations, jobs[..n]);
      forall i | 0 <= i < |allocations|
        ensures Lookup(ByProvider(jobs), allocations[i].provider) == ViewOf(allocations, jobs)[i]
      {
        assert Lookup(ByProvider(jobs[..n]), allocations[i].provider) == ViewOf(allocations, jobs[..n])[i];
        assert i != n ==> allocations[i].provider != allocations[n].provider;
      }
    }
  }

  lemma {:induction false} NoCommon(c: Config, allocations: seq<Allocation>, stored: Stored)
    ensures multiset(TxsOf(c, allocations, stored))[CreateRaid] == 0
    ensures multiset(TxsOf(c, allocations, stored))[FinalizeRaid] == 0
  {
    hide Plan, Txs;
    if allocations != [] {
      var a := allocations[|allocations| - 1];
      NoCommon(c, allocations[..|allocations| - 1], stored);
      TxsCount(Plan(c, a, Lookup(stored, a.provider)), a.provider, Link, a.provider);
    }
  }

  /** A checkpoint after the first `n` allocations. */
  function CheckpointAt(c: Config, allocations: seq<Allocation>, stored: Stored, base: Hash, start: Artifact, n: nat,
                        jobIds: seq<nat>): Artifact
    requires n <= |allocations|
  {
    Artifact(true, Partial, start.raidRef, JobsOf(c, allocations[..n], stored, base), start.finalizeHash,
             start.hashes + Positions(base, |TxsOf(c, allocations[..n], stored)|), jobIds)
  }

  lemma ListedJobs(jobs: seq<Job>, fin: Option<Hash>, hashes: seq<Hash>, allocations: seq<Allocation>)
    requires Listed(jobs, fin, hashes) && |jobs| <= |allocations|
    requires forall p :: p in ByProvider(jobs) ==> ByProvider(jobs)[p] in jobs
    ensures forall p, k :: p in ByProvider(jobs) && k in ByProvider(jobs)[p].hashes ==> ByProvider(jobs)[p].hashes[k] in hashes
  {
    forall p, k | p in ByProvider(jobs) && k in ByProvider(jobs)[p].hashes
      ensures ByProvider(jobs)[p].hashes[k] in hashes
    {
      var i: nat :| i < |jobs| && jobs[i] == ByProvider(jobs)[p];
    }
  }

  /** A checkpoint is faithful exactly when it covers all the jobs there were before: a run that
      ends there has not forgotten anything. */
  lemma CheckpointFaithful(c: Config, allocations: seq<Allocation>, chain: seq<Tx>, start: Artifact, n: nat, jobIds: seq<nat>)
    requires DistinctProviders(allocations) && Faithful(allocations, chain, start) && n <= |allocations|
    ensures var stored := ByProvider(start.jobs);
            Faithful(allocations, chain + TxsOf(c, allocations[..n], stored), CheckpointAt(c, allocations, stored, |chain|, start, n, jobIds))
            <==> |start.jobs| <= n
  {
    hide Plan, Txs, TxsOf, Balanced, JobOk, Listed;
    var stored := ByProvider(start.jobs);
    var v := ViewOf(allocations, start.jobs);
    JobProviders(allocations, chain, start.jobs);
    StoredJobs(allocations, start.jobs);
    BalancedAt(c, allocations, stored, chain, v, n);
    NoCommon(c, allocations[..n], stored);
    ListedJobs(start.jobs, start.finalizeHash, start.hashes, allocations);
    ListedAt(c, allocations[..n], stored, |chain|, start.hashes);
    ListedFinal(start.jobs, start.finalizeHash, start.hashes);
    var chain' := chain + TxsOf(c, allocations[..n], stored);
    var jobs' := JobsOf(c, allocations[..n], stored, |chain|);
    var w := ViewAt(c, allocations, stored, |chain|, v, n);
    if |start.jobs| <= n {
      assert ViewOf(allocations, jobs') == w;
    } else {
      CreatedOnce(allocations, chain', w, n);
      NotCreated(allocations, chain', ViewOf(allocations, jobs'), n);
    }
  }

  lemma JobProviders(allocations: seq<Allocation>, chain: seq<Tx>, jobs: seq<Job>)
    requires |jobs| <= |allocations| && Balanced(allocations, chain, ViewOf(allocations, jobs))
    ensures forall i :: 0 <= i < |jobs| ==> jobs[i].provider == allocations[i].provider && JobOk(allocations[i], jobs[i])
  {
    forall i | 0 <= i < |jobs|
      ensures JobOk(allocations[i], jobs[i])
    {
      assert ViewOf(allocations, jobs)[i] == Some(jobs[i]);
    }
  }

  lemma ListedFinal(jobs: seq<Job>, fin: Option<Hash>, hashes: seq<Hash>)
    requires Listed(jobs, fin, hashes)
    ensures fin.Some? ==> fin.value in hashes
  {
  }

  lemma CreatedOnce(allocations: seq<Allocation>, chain: seq<Tx>, v: View, i: nat)
    requires Balanced(allocations, chain, v) && i < |v| && v[i].Some?
    ensures multiset(chain)[OfJob(CreateJob, allocations[i].provider)] == 1
  {
    assert JobOk(allocations[i], v[i].value) && Has(v[i], CreateJob);
  }

  lemma NotCreated(allocations: seq<Allocation>, chain: seq<Tx>, v: View, i: nat)
    requires i < |v| == |allocations| && v[i].None? && multiset(chain)[OfJob(CreateJob, allocations[i].provider)] != 0
    ensures !Balanced(allocations, chain, v)
  {
    assert !Has(v[i], CreateJob);
  }

  /** Before its step, a kind is on record exactly if it was stored. */
  lemma NotYet(c: Config, a: Allocation, e: Option<Job>, n: nat, base: Hash, k: Kind)
    requires n <= |ORDER|
    ensures k in RecordAll(Begin(c, a, e), PlanUpTo(c, a, e, n), base).hashes
            <==> Has(e, k) || (k in ORDER[..n] && Wanted(c, a, e, k))
    ensures RecordAll(Begin(c, a, e), PlanUpTo(c, a, e, n), base).provider == a.provider
  {
    hide Wanted, RecordAll;
    PlanMembers(c, a, e, n, k);
    RecordAllHashes(Begin(c, a, e), PlanUpTo(c, a, e, n), base, k);
  }

  lemma PlanPrefix(c: Config, a: Allocation, e: Option<Job>, n: nat, m: nat)
    requires n <= m <= |ORDER|
    ensures PlanUpTo(c, a, e, n) <= PlanUpTo(c, a, e, m)
    ensures (forall i :: n <= i < m ==> !Wanted(c, a, e, ORDER[i])) ==> PlanUpTo(c, a, e, n) == PlanUpTo(c, a, e, m)
    ensures n < m && Wanted(c, a, e, ORDER[n]) ==> |PlanUpTo(c, a, e, n)| < |PlanUpTo(c, a, e, m)|
    decreases m
  {
    hide Wanted;
    if n < m {
      PlanPrefix(c, a, e, n, m - 1);
    }
  }

  /** The transactions sent when a run ends within a plan. */
  predicate Interrupted(before: seq<Tx>, after: seq<Tx>, kinds: seq<Kind>, p: ProviderId) {
    exists n :: 0 <= n < |kinds| && after == before + Txs(kinds[..n], p)
  }

  /** A plan carried out up to its `n`-th kind. */
  ghost predicate At(c: Config, a: Allocation, e: Option<Job>, n: nat, job: Job, before: seq<Tx>, chain: seq<Tx>,
                     stored: seq<Hash>, hashes: seq<Hash>)
    requires n <= |ORDER|
  {
    var done := PlanUpTo(c, a, e, n);
    && job == RecordAll(Begin(c, a, e), done, |before|) && chain == before + Txs(done, a.provider)
    && hashes == stored + Positions(|before|, |done|)
  }

  lemma AtStart(c: Config, a: Allocation, e: Option<Job>, before: seq<Tx>, stored: seq<Hash>)
    ensures At(c, a, e, 0, Begin(c, a, e), before, before, stored, stored)
  {
    assert before + Txs([], a.provider) == before && stored + [] == stored;
  }

  lemma AtHas(c: Config, a: Allocation, e: Option<Job>, n: nat, job: Job, before: seq<Tx>, chain: seq<Tx>,
              stored: seq<Hash>, hashes: seq<Hash>, k: Kind)
    requires n <= |ORDER| && At(c, a, e, n, job, before, chain, stored, hashes)
    ensures k in job.hashes <==> Has(e, k) || (k in ORDER[..n] && Wanted(c, a, e, k))
  {
    NotYet(c, a, e, n, |before|, k);
  }

  lemma AtEarly(c: Config, a: Allocation, e: Option<Job>, n: nat, job: Job, before: seq<Tx>, chain: seq<Tx>,
                stored: seq<Hash>, hashes: seq<Hash>)
    requires n <= |ORDER| && At(c, a, e, n, job, before, chain, stored, hashes)
    requires forall i :: n <= i < |ORDER| ==> !Wanted(c, a, e, ORDER[i])
    ensures At(c, a, e, |ORDER|, job, before, chain, stored, hashes)
  {
    hide Wanted;
    PlanPrefix(c, a, e, n, |ORDER|);
  }

  /** One more kind: carried out, not due, or cut there. */
  lemma AtNext(c: Config, a: Allocation, e: Option<Job>, n: nat, job: Job, before: seq<Tx>, chain: seq<Tx>,
               stored: seq<Hash>, hashes: seq<Hash>)
    requires n < |ORDER| && At(c, a, e, n, job, before, chain, stored, hashes)
    ensures job.provider == a.provider
    ensures if Wanted(c, a, e, ORDER[n])
            then && At(c, a, e, n + 1, Record(job, ORDER[n], |chain|), before, chain + [OfJob(ORDER[n], a.provider)], stored, hashes + [|chain|])
                 && Interrupted(before, chain, Plan(c, a, e), a.provider)
            else At(c, a, e, n + 1, job, before, chain, stored, hashes)
  {
    hide StatusOn, Wanted, RecordAll, Begin, Positions, Txs, Interrupted, Plan;
    var done := PlanUpTo(c, a, e, n);
    NotYet(c, a, e, n, |before|, ORDER[n]);
    if Wanted(c, a, e, ORDER[n]) {
      CutHere(c, a, e, n, before);
      StepOf(Begin(c, a, e), done, ORDER[n], |before|);
    } else {
      AppendNothing(done);
    }
  }

  lemma CutHere(c: Config, a: Allocation, e: Option<Job>, n: nat, before: seq<Tx>)
    requires n < |ORDER| && Wanted(c, a, e, ORDER[n])
    ensures Interrupted(before, before + Txs(PlanUpTo(c, a, e, n), a.provider), Plan(c, a, e), a.provider)
  {
    hide Wanted, PlanUpTo;
    PlanPrefix(c, a, e, n, |ORDER|);
    var done := PlanUpTo(c, a, e, n);
    assert Plan(c, a, e)[..|done|] == done;
  }

  /** The numbers of the jobs created by these transactions, which are their positions. */
  function CreatedIds(sent: seq<Tx>, base: Hash): seq<nat> {
    if sent == [] then []
    else
      var n := |sent| - 1;
      CreatedIds(sent[..n], base) + if sent[n].OfJob? && sent[n].kind.CreateJob? then [base + n] else []
  }

  lemma {:induction false} CreatedIdsAre(sent: seq<Tx>, base: Hash)
    ensures forall h: nat :: h in CreatedIds(sent, base) <==>
              base <= h < base + |sent| && sent[h - base].OfJob? && sent[h - base].kind.CreateJob?
    ensures forall i, j :: 0 <= i < j < |CreatedIds(sent, base)| ==> CreatedIds(sent, base)[i] < CreatedIds(sent, base)[j]
  {
    if sent != [] {
      var n := |sent| - 1;
      CreatedIdsAre(sent[..n], base);
      var before := CreatedIds(sent[..n], base);
      assert forall i :: 0 <= i < |before| ==> before[i] in before;
    }
  }

  /** The job numbers listed, when the log was `before` the ids were listed. */
  ghost predicate IdsAt(ids: seq<nat>, before: seq<Tx>, chain: seq<Tx>, jobIds: seq<nat>) {
    before <= chain && jobIds == ids + CreatedIds(chain[|before|..], |before|)
  }

  lemma IdsStart(ids: seq<nat>, chain: seq<Tx>)
    ensures IdsAt(ids, chain, chain, ids)
  {
    assert chain[|chain|..] == [];
  }

  lemma IdsNext(ids: seq<nat>, before: seq<Tx>, chain: seq<Tx>, jobIds: seq<nat>, tx: Tx)
    requires IdsAt(ids, before, chain, jobIds)
    ensures IdsAt(ids, before, chain + [tx], if tx.OfJob? && tx.kind.CreateJob? then jobIds + [|chain|] else jobIds)
  {
    assert (chain + [tx])[|before|..] == chain[|before|..] + [tx];
    CreatedLast(chain[|before|..], tx, |before|);
    hide CreatedIds;
  }

  lemma CreatedLast(sent: seq<Tx>, tx: Tx, base: Hash)
    ensures CreatedIds(sent + [tx], base) == CreatedIds(sent, base) + if tx.OfJob? && tx.kind.CreateJob? then [base + |sent|] else []
  {
    assert (sent + [tx])[..|sent|] == sent;
  }

  lemma IdsOn(ids: seq<nat>, a: seq<Tx>, b: seq<Tx>, c: seq<Tx>, bs: seq<nat>, cs: seq<nat>)
    requires IdsAt(ids, a, b, bs) && IdsAt(bs, b, c, cs)
    ensures IdsAt(ids, a, c, cs)
  {
    assert c[|a|..] == b[|a|..] + c[|b|..];
    CreatedAppend(b[|a|..], c[|b|..], |a|);
  }

  lemma {:induction false} CreatedAppend(a: seq<Tx>, b: seq<Tx>, base: Hash)
    ensures CreatedIds(a + b, base) == CreatedIds(a, base) + CreatedIds(b, base + |a|)
  {
    if b == [] {
      assert a + b == a;
    } else {
      CreatedAppend(a, b[..|b| - 1], base);
      assert (a + b)[..|a + b| - 1] == a + b[..|b| - 1];
    }
  }

  class Executor {
    /** The log of the chain. */
    var chain: seq<Tx>
    /** The artifact on disk. */
    var file: Option<Artifact>
    /** How long the log was when the artifact was last written: kept by the model. */
    var written: nat

    /** A transaction is sent and confirmed, or the run ends there. */
    method Send(tx: Tx) returns (h: Option<Hash>)
      modifies this`chain
      ensures h.None? ==> chain == old(chain)
      ensures h.Some? ==> chain == old(chain) + [tx] && h.value == |old(chain)|
    {
      var fails: bool := *;
      if fails {
        return None;
      }
      h := Some(|chain|);
      chain := chain + [tx];
    }

    /** One step of a plan: if its transaction is due it is sent and entered in the state and
        in the job. */
    method Step(n: nat, due: bool, c: Config, a: Allocation, e: Option<Job>, job: Job, st: ExecutionState,
                ghost before: seq<Tx>, ghost stored: seq<Hash>, ghost ids: seq<nat>)
      returns (next: Option<Job>)
      requires n < |ORDER| && (due <==> Wanted(c, a, e, ORDER[n]))
      requires At(c, a, e, n, job, before, chain, stored, st.hashes) && IdsAt(ids, before, chain, st.jobIds)
      modifies this`chain, st`hashes, st`jobIds
      ensures next.None? ==> Interrupted(before, chain, Plan(c, a, e), a.provider)
      ensures next.Some? ==> At(c, a, e, n + 1, next.value, before, chain, stored, st.hashes) && IdsAt(ids, before, chain, st.jobIds)
    {
      hide StatusOn, Wanted, RecordAll, Begin, Positions, Txs, PlanUpTo, Plan, At, Interrupted, IdsAt;
      IdsNext(ids, before, chain, st.jobIds, OfJob(ORDER[n], job.provider));
      AtNext(c, a, e, n, job, before, chain, stored, st.hashes);
      if !due {
        return Some(job);
      }
      var h := Send(OfJob(ORDER[n], job.provider));
      if h.None? {
        return None;
      }
      st.hashes := st.hashes + [h.value];
      if ORDER[n].CreateJob? {
        st.jobIds := st.jobIds + [h.value];
      }
      next := Some(Record(job, ORDER[n], h.value));
    }

    /** `processAllocation` */
    method ProcessAllocation(c: Config, a: Allocation, st: ExecutionState, e: Option<Job>) returns (result: Option<Job>)
      modifies this`chain, st`hashes, st`jobIds
      ensures var plan := Plan(c, a, e);
              if result.None? then Interrupted(old(chain), chain, plan, a.provider)
              else && chain == old(chain) + Txs(plan, a.provider)
                   && st.hashes == old(st.hashes) + Positions(|old(chain)|, |plan|)
                   && result.value == Processed(c, a, e, |old(chain)|)
      ensures old(chain) <= chain && Allowed(c, a, e, chain[|old(chain)|..])
      ensures result.Some? && (e.Some? ==> JobOk(a, e.value)) ==> Fulfilled(c, a, e, result.value)
      ensures old(LogOrdered(chain) && Recorded(e, a.provider, chain)) ==> LogOrdered(chain)
      ensures result.Some? ==> IdsAt(old(st.jobIds), old(chain), chain, st.jobIds)
    {
      hide *;
      result := SendTerms(c, a, st, e);
      if result.Some? {
        result := SendOutcome(c, a, st, e, result.value, old(chain), old(st.hashes), old(st.jobIds));
      }
      Carried(c, a, e, result, old(chain), chain, old(st.hashes), st.hashes);
    }

    /** Creating, funding and linking the job, and rejecting it. */
    method SendTerms(c: Config, a: Allocation, st: ExecutionState, e: Option<Job>) returns (r: Option<Job>)
      modifies this`chain, st`hashes, st`jobIds
      ensures r.None? ==> Interrupted(old(chain), chain, Plan(c, a, e), a.provider)
      ensures r.Some? ==> At(c, a, e, 5, r.value, old(chain), chain, old(st.hashes), st.hashes)
                          && IdsAt(old(st.jobIds), old(chain), chain, st.jobIds)
    {
      hide StatusOn, PlanUpTo, RecordAll, Positions, At, Interrupted, Plan, IdsAt;
      ghost var before, stored, ids := chain, st.hashes, st.jobIds;
      IdsStart(ids, chain);
      var address := if e.Some? then e.value.address else a.provider in c.actors || a.provider in c.known;
      var paid := a.complete && a.budget > 0;
      AtStart(c, a, e, before, stored);
      r := Step(0, !(e.Some? && e.value.jobId.Some?), c, a, e, Begin(c, a, e), st, before, stored, ids);
      if r.None? { return; }
      AtHas(c, a, e, 1, r.value, before, chain, stored, st.hashes, SetBudget);
      r := Step(1, paid && SetBudget !in r.value.hashes, c, a, e, r.value, st, before, stored, ids);
      if r.None? { return; }
      AtHas(c, a, e, 2, r.value, before, chain, stored, st.hashes, Fund);
      r := Step(2, paid && c.fundJobs && address && Fund !in r.value.hashes, c, a, e, r.value, st, before, stored, ids);
      if r.None? { return; }
      AtHas(c, a, e, 3, r.value, before, chain, stored, st.hashes, Link);
      r := Step(3, Link !in r.value.hashes, c, a, e, r.value, st, before, stored, ids);
      if r.None? { return; }
      AtHas(c, a, e, 4, r.value, before, chain, stored, st.hashes, Reject);
      r := Step(4, !a.complete && Reject !in r.value.hashes, c, a, e, r.value, st, before, stored, ids);
    }

    /** Submitting and completing a funded job, by whoever can. */
    method SendOutcome(c: Config, a: Allocation, st: ExecutionState, e: Option<Job>, job: Job,
                       ghost before: seq<Tx>, ghost stored: seq<Hash>, ghost ids: seq<nat>)
      returns (r: Option<Job>)
      requires At(c, a, e, 5, job, before, chain, stored, st.hashes) && IdsAt(ids, before, chain, st.jobIds)
      modifies this`chain, st`hashes, st`jobIds
      ensures r.None? ==> Interrupted(before, chain, Plan(c, a, e), a.provider)
      ensures r.Some? ==> At(c, a, e, |ORDER|, r.value, before, chain, stored, st.hashes) && IdsAt(ids, before, chain, st.jobIds)
    {
      hide StatusOn, PlanUpTo, RecordAll, Positions, At, Interrupted, Plan, IdsAt;
      r := Some(job);
      var address := if e.Some? then e.value.address else a.provider in c.actors || a.provider in c.known;
      AtHas(c, a, e, 5, job, before, chain, stored, st.hashes, Fund);
      AtHas(c, a, e, 5, job, before, chain, stored, st.hashes, Submit);
      AtHas(c, a, e, 5, job, before, chain, stored, st.hashes, Complete);
      assert ORDER[..5][2] == Fund;
      if !a.complete || a.budget <= 0 || !c.fundJobs || !address || Fund !in job.hashes {
        AtEarly(c, a, e, 5, job, before, chain, stored, st.hashes);
        return;
      }
      if Submit !in job.hashes && a.provider !in c.actors {
        AtEarly(c, a, e, 5, job, before, chain, stored, st.hashes);
        return;
      }
      r := Step(5, Submit !in job.hashes, c, a, e, job, st, before, stored, ids);
      if r.None? { return; }
      AtHas(c, a, e, 6, r.value, before, chain, stored, st.hashes, Complete);
      if Complete !in r.value.hashes && !c.evaluator {
        AtEarly(c, a, e, 6, r.value, before, chain, stored, st.hashes);
        return;
      }
      r := Step(6, Complete !in r.value.hashes, c, a, e, r.value, st, before, stored, ids);
    }

    /** The artifact is written, or the run ends there. */
    method WriteFile(art: Artifact) returns (ok: bool)
      modifies this`file, this`written
      ensures ok ==> file == Some(art) && written == |chain|
      ensures !ok ==> file == old(file) && written == old(written)
    {
      ok := *;
      if ok {
        file, written := Some(art), |chain|;
      }
    }

    /** The loop of `runChildJobsAndFinalize` and of `resume`. When it ends early, the artifact
        is the last checkpoint. */
    method RunJobs(c: Config, allocations: seq<Allocation>, stored: Stored, st: ExecutionState)
      returns (ok: bool, ghost last: nat, ghost jobIds: seq<nat>)
      requires st.jobs == []
      modifies this`chain, this`file, this`written, st`hashes, st`jobIds, st`jobs
      ensures ok ==> var txs := TxsOf(c, allocations, stored);
                && chain == old(chain) + txs && st.jobs == JobsOf(c, allocations, stored, |old(chain)|)
                && st.hashes == old(st.hashes) + Positions(|old(chain)|, |txs|)
      ensures ok ==> IdsAt(old(st.jobIds), old(chain), chain, st.jobIds)
      ensures !ok ==> old(chain) <= chain <= old(chain) + TxsOf(c, allocations, stored)
      ensures last <= |allocations|
      ensures || (file == old(file) && written == old(written))
              || (file == Some(CheckpointAt(c, allocations, stored, |old(chain)|, old(st.Snapshot(Partial)), last, jobIds))
                  && written <= |chain| && chain[..written] == old(chain) + TxsOf(c, allocations[..last], stored))
    {
      hide *;
      ghost var chain0, start := chain, st.Snapshot(Partial);
      last, jobIds := 0, [];
      StateIs(st, Partial);
      RunStarts(c, allocations, stored, chain, start);
      IdsStart(st.jobIds, chain);
      for k := 0 to |allocations|
        invariant RunAt(c, allocations, stored, k, chain0, start, chain, st.jobs, st.hashes) && st.finalizeHash == start.finalizeHash
        invariant last <= k && IdsAt(start.jobIds, chain0, chain, st.jobIds)
        invariant || (file == old(file) && written == old(written))
                  || WrittenAt(c, allocations, stored, last, chain0, start, chain, file, written, jobIds)
      {
        var a := allocations[k];
        var e := Lookup(stored, a.provider);
        RunNext(c, allocations, stored, k, chain0, start, chain, st.jobs, st.hashes);
        if Skipped(stored, a.provider) {
          SkippedIn(stored, a.provider);
          st.jobs := st.jobs + [stored[a.provider]];
        } else {
          ghost var chain1, hashes1, ids1 := chain, st.hashes, st.jobIds;
          var job := ProcessAllocation(c, a, st, e);
          if job.None? {
            RunInterrupted(c, allocations, stored, k, chain0, start, chain1, chain, st.jobs, hashes1, last, file, written, jobIds);
            WrittenIs(c, allocations, stored, last, chain0, start, chain, file, written, jobIds);
            return false, last, jobIds;
          }
          IdsOn(start.jobIds, chain0, chain1, chain, ids1, st.jobIds);
          st.jobs := st.jobs + [job.value];
          StateIs(st, Partial);
          var saved := WriteFile(st.Snapshot(Partial));
          if !saved {
            RunUnwritten(c, allocations, stored, k, chain0, start, chain1, chain, st.jobs, st.hashes, last, file, written, jobIds);
            WrittenIs(c, allocations, stored, last, chain0, start, chain, file, written, jobIds);
            return false, last, jobIds;
          }
          last, jobIds := k + 1, st.jobIds;
          JustWritten(c, allocations, stored, last, chain0, start, chain, st.jobs, st.hashes, file, written, jobIds);
        }
      }
      RunEnds(c, allocations, stored, chain0, start, chain, st.jobs, st.hashes);
      WrittenIs(c, allocations, stored, last, chain0, start, chain, file, written, jobIds);
      ok := true;
    }

    /** `finalizeExecution` */
    method FinalizeExecution(c: Config, st: ExecutionState) returns (record: Option<Artifact>)
      modifies this`chain, this`file, this`written, st`hashes, st`finalizeHash
      ensures var send := st.jobs == old(st.jobs) && old(st.finalizeHash).None? && (AllTerminal(st.jobs) || !c.requireTerminal);
              if record.None? then
                && (chain == old(chain) || (send && chain == old(chain) + [FinalizeRaid]))
                && file == old(file) && written == old(written)
              else
                && chain == old(chain) + (if send then [FinalizeRaid] else [])
                && record.value.hashes == old(st.hashes) + (if send then [|old(chain)|] else [])
                && record.value.finalizeHash == (if send then Some(|old(chain)|) else old(st.finalizeHash))
                && record.value.jobIds == st.jobIds == old(st.jobIds)
                && record.value.jobs == old(st.jobs) && record.value.onchain && record.value.raidRef == st.raidRef
                && record.value.status == (if AllTerminal(record.value.jobs) && record.value.finalizeHash.Some? then Terminal else Partial)
                && file == record && written == |chain|
    {
      var allTerminal := AllTerminal(st.jobs);
      if st.finalizeHash.None? && (allTerminal || !c.requireTerminal) {
        var h := Send(FinalizeRaid);
        if h.None? {
          return None;
        }
        st.hashes := st.hashes + [h.value];
        st.finalizeHash := h;
      }
      var art := st.Snapshot(if allTerminal && st.finalizeHash.Some? then Terminal else Partial);
      var saved := WriteFile(art);
      record := if saved then Some(art) else None;
    }

    /** `execute` begins with a raid of its own on the chain. If the chain had seen nothing of it
        before, then however the run ends nothing was sent twice, and the artifact tells all that
        was sent until it was written. */
    method Execute(c: Config, allocations: Option<seq<Allocation>>) returns (outcome: Outcome)
      requires allocations.Some? ==> DistinctProviders(allocations.value)
      modifies this`chain, this`file, this`written
      ensures outcome.Undefined? <==> allocations.None?
      ensures outcome.Undefined? ==> chain == old(chain) && file == old(file)
      ensures old(chain) <= chain && (|old(chain)| < |chain| ==> chain[|old(chain)|] == CreateRaid)
      ensures outcome.Done? ==>
                && |old(chain)| < |chain|
                && file == Some(outcome.record) && written == |chain|
                && (old(chain) == [] ==> Faithful(allocations.value, chain, outcome.record))
                && IdsAt([], old(chain) + [CreateRaid], chain, outcome.record.jobIds)
                && outcome.record.onchain && |outcome.record.jobs| == |allocations.value|
                && outcome.record.status == (if AllTerminal(outcome.record.jobs) && outcome.record.finalizeHash.Some? then Terminal else Partial)
      ensures outcome.Thrown? ==>
                && (old(chain) == [] ==> AtMostOnce(allocations.value, chain))
                && ((file == old(file) && (chain == old(chain) || chain == old(chain) + [CreateRaid]))
                    || (file.Some? && file.value.onchain && file.value.status.Partial? && written <= |chain|
                        && (old(chain) == [] ==> Faithful(allocations.value, chain[..written], file.value))))
      ensures !outcome.Undefined? && |old(chain)| < |chain| ==> RunAllowed(c, allocations.value, map[], chain[|old(chain)| + 1..])
      ensures outcome.Done? ==> RunFulfilled(c, allocations.value, map[], outcome.record.jobs)
      ensures old(LogOrdered(chain)) ==> LogOrdered(chain)
    {
      hide *;
      if allocations.None? {
        return Undefined;
      }
      NothingAllowed(c, allocations.value, old(chain));
      ghost var all := allocations.value;
      var h := Send(CreateRaid);
      if h.None? {
        if chain == [] {
          NothingSent(all, chain);
        }
        return Thrown;
      }
      var raidRef: nat := *;
      var st := new ExecutionState(raidRef, [h.value], [], None);
      StateIs(st, Partial);
      var first := st.Snapshot(Partial);
      var saved := WriteFile(first);
      if !saved {
        if old(chain) == [] {
          assert chain == [CreateRaid];
          Started(all, first);
          FaithfulOnce(all, chain, first);
        }
        return Thrown;
      }
      ghost var chain0 := chain;
      NoStored(first.jobs);
      outcome := RunAndFinalize(c, allocations.value, st, map[], first);
      ExecutedIs(c, all, old(chain), first, outcome, chain0, chain, file, written);
      ResumedRight(c, all, first, outcome, chain0, chain, Some(first), file);
      NoneRecorded(chain0);
    }

    /** `runChildJobsAndFinalize`, and the loop and end of `resume`. */
    method RunAndFinalize(c: Config, all: seq<Allocation>, st: ExecutionState, stored: Stored, ghost start: Artifact)
      returns (outcome: Outcome)
      requires DistinctProviders(all) && st.jobs == [] && stored == ByProvider(start.jobs)
      requires st.raidRef == start.raidRef && st.hashes == start.hashes && st.finalizeHash == start.finalizeHash
      requires st.jobIds == start.jobIds
      modifies this`chain, this`file, this`written, st
      ensures !outcome.Undefined? && ResumedTo(c, all, start, outcome, old(chain), chain, old(file), file)
      ensures outcome.Done? ==> written == |chain| && IdsAt(start.jobIds, old(chain), chain, outcome.record.jobIds)
      ensures outcome.Thrown? ==> (file == old(file) && written == old(written))
                                  || IsCheckpoint(c, all, start, old(chain), chain, file, written)
    {
      hide *;
      ghost var chain0 := chain;
      ghost var begun := st.Snapshot(Partial);
      StateIs(st, Partial);
      var ok, last, jobIds := RunJobs(c, all, stored, st);
      CheckpointDepends(c, all, stored, |chain0|, begun, start, last, jobIds);
      if !ok {
        BetweenIs(c, all, start, chain0, chain);
        ThrownTo(c, all, start, chain0, chain, old(file), file, written, last, jobIds);
        return Thrown;
      }
      FinalizesIs(c, start, st.jobs);
      IdsNext(start.jobIds, chain0, chain, st.jobIds, FinalizeRaid);
      AppendNothing(chain);
      ghost var chain1 := chain;
      var record := FinalizeExecution(c, st);
      if record.None? {
        BetweenIs(c, all, start, chain0, chain);
        ThrownTo(c, all, start, chain0, chain, old(file), file, written, last, jobIds);
        return Thrown;
      }
      assert chain == chain1 || chain == chain1 + [FinalizeRaid];
      DoneTo(c, all, start, chain0, chain, old(file), record.value);
      outcome := Done(record.value);
    }

    /** `resume`. From a faithful artifact, a run that finishes leaves a faithful one; in any case
        it sends what the plans say and nothing else. */
    method Resume(c: Config, allocations: Option<seq<Allocation>>, existing: Artifact) returns (outcome: Outcome)
      requires allocations.Some? ==> DistinctProviders(allocations.value)
      modifies this`chain, this`file, this`written
      ensures existing.status.Terminal? ==> outcome == Done(existing) && chain == old(chain) && file == old(file)
      ensures !existing.status.Terminal? ==> (outcome.Undefined? <==> !existing.onchain || allocations.None?)
      ensures outcome.Undefined? ==> chain == old(chain) && file == old(file)
      ensures !existing.status.Terminal? && !outcome.Undefined? ==>
                ResumedTo(c, allocations.value, existing.(jobs := StoredJobsOf(old(file), existing)), outcome,
                          old(chain), chain, old(file), file)
      ensures outcome.Done? && !existing.status.Terminal? ==>
                written == |chain| && IdsAt(existing.jobIds, old(chain), chain, outcome.record.jobIds)
      ensures !existing.status.Terminal? && !outcome.Undefined? && old(AtMostOnce(allocations.value, chain)) ==>
                (AtMostOnce(allocations.value, chain) <==>
                   if outcome.Done? then NothingRepeated(c, allocations.value, existing.(jobs := StoredJobsOf(old(file), existing)), old(chain))
                   else forall t :: t in chain[|old(chain)|..] ==> t !in old(chain))
      ensures !existing.status.Terminal? && !outcome.Undefined? ==>
                var stored := ByProvider(StoredJobsOf(old(file), existing));
                && old(chain) <= chain && RunAllowed(c, allocations.value, stored, chain[|old(chain)|..])
                && (outcome.Done? ==> RunFulfilled(c, allocations.value, stored, outcome.record.jobs))
                && (old(LogOrdered(chain)) && AllRecorded(stored, old(chain)) ==> LogOrdered(chain))
    {
      hide *;
      if existing.status.Terminal? {
        return Done(existing);
      }
      if !existing.onchain || allocations.None? {
        return Undefined;
      }
      var jobs := if file.Some? then file.value.jobs else existing.jobs;
      StoredJobsAre(file, existing);
      var st := new ExecutionState(existing.raidRef, existing.hashes, existing.jobIds, existing.finalizeHash);
      outcome := RunAndFinalize(c, allocations.value, st, ByProvider(jobs), existing.(jobs := jobs));
      ResumedRight(c, allocations.value, existing.(jobs := jobs), outcome, old(chain), chain, old(file), file);
      if AtMostOnce(allocations.value, old(chain)) {
        ResumedRepeats(c, allocations.value, existing.(jobs := jobs), outcome, old(chain), chain, old(file), file);
      }
    }

    /** Any number of runs for one raid, each with its own configuration: the first one is cut at
        a checkpoint or finishes, those after it finish. Nothing is ever sent twice. */
    method Settle(configs: seq<Config>, allocations: seq<Allocation>)
      requires chain == [] && file.None? && DistinctProviders(allocations) && configs != []
      modifies this`chain, this`file, this`written
      ensures AtMostOnce(allocations, chain) && LogOrdered(chain)
    {
      hide *;
      NothingOrdered(chain);
      var first := Execute(configs[0], Some(allocations));
      if first.Thrown? && (file.None? || written != |chain|) {
        return;
      }
      var record := file.value;
      if first.Thrown? {
        assert chain[..written] == chain;
      }
      for k := 1 to |configs|
        invariant file == Some(record) && Faithful(allocations, chain, record) && LogOrdered(chain)
      {
        StoredItself(file, record);
        FaithfulRecorded(allocations, chain, record);
        ghost var chain0, file0 := chain, file;
        var next := Resume(configs[k], Some(allocations), record);
        if !record.status.Terminal? && !next.Undefined? {
          ResumedIs(configs[k], allocations, record, next, chain0, chain, file0, file);
        }
        match next
        case Done(r) =>
          record := r;
        case _ =>
          if next.Undefined? {
            FaithfulOnce(allocations, chain, record);
          }
          return;
      }
      FaithfulOnce(allocations, chain, record);
    }
  }

  datatype Outcome = Undefined | Thrown | Done(record: Artifact)

  /** The jobs `resume` starts from. */
  function StoredJobsOf(file: Option<Artifact>, existing: Artifact): seq<Job> {
    if file.Some? then file.value.jobs else existing.jobs
  }

  predicate Finalizes(c: Config, existing: Artifact, jobs: seq<Job>) {
    existing.finalizeHash.None? && (AllTerminal(jobs) || !c.requireTerminal)
  }

  /** All that a run from `start` sends: for the jobs, and at its end for the raid. */
  function Sent(c: Config, all: seq<Allocation>, start: Artifact, base: Hash): seq<Tx> {
    var stored := ByProvider(start.jobs);
    TxsOf(c, all, stored) + (if Finalizes(c, start, JobsOf(c, all, stored, base)) then [FinalizeRaid] else [])
  }

  /** The artifact is a checkpoint of the run that began with log `chain0`. */
  ghost predicate IsCheckpoint(c: Config, all: seq<Allocation>, start: Artifact, chain0: seq<Tx>, chain: seq<Tx>,
                               file: Option<Artifact>, written: nat) {
    exists n: nat, jobIds :: n <= |all| && WrittenAt(c, all, ByProvider(start.jobs), n, chain0, start, chain, file, written, jobIds)
  }

  /** What a resume comes to. */
  ghost predicate ResumedTo(c: Config, all: seq<Allocation>, start: Artifact, outcome: Outcome, chain0: seq<Tx>, chain: seq<Tx>,
                            file0: Option<Artifact>, file: Option<Artifact>) {
    match outcome
    case Undefined => false
    case Thrown =>
      && Between(c, all, start, chain0, chain)
      && (Faithful(all, chain0, start) ==> AtMostOnce(all, chain))
      && (file == file0 || exists written :: IsCheckpoint(c, all, start, chain0, chain, file, written))
    case Done(record) =>
      && file == Some(record) && record.onchain
      && record.jobs == JobsOf(c, all, ByProvider(start.jobs), |chain0|)
      && chain == chain0 + Sent(c, all, start, |chain0|)
      && record.status == (if AllTerminal(record.jobs) && record.finalizeHash.Some? then Terminal else Partial)
      && (Faithful(all, chain0, start) ==> Faithful(all, chain, record))
  }

  lemma ResumedIs(c: Config, all: seq<Allocation>, start: Artifact, outcome: Outcome, chain0: seq<Tx>, chain: seq<Tx>,
                  file0: Option<Artifact>, file: Option<Artifact>)
    requires ResumedTo(c, all, start, outcome, chain0, chain, file0, file)
    ensures outcome.Thrown? ==>
              && (Faithful(all, chain0, start) ==> AtMostOnce(all, chain))
              && (file == file0 || (file.Some? && file.value.onchain && file.value.status.Partial?))
    ensures outcome.Done? ==>
              && file == Some(outcome.record) && outcome.record.onchain && !outcome.record.status.Synthetic?
              && (outcome.record.status.Terminal? <==> AllTerminal(outcome.record.jobs) && outcome.record.finalizeHash.Some?)
              && (Faithful(all, chain0, start) ==> Faithful(all, chain, outcome.record))
  {
    hide Faithful, AtMostOnce, TxsOf, JobsOf, ByProvider, AllTerminal, Positions;
  }

  /** What a run can have sent when it ends. */
  ghost predicate Between(c: Config, all: seq<Allocation>, start: Artifact, chain0: seq<Tx>, chain: seq<Tx>) {
    chain0 <= chain <= chain0 + Sent(c, all, start, |chain0|)
  }

  lemma BetweenIs(c: Config, all: seq<Allocation>, start: Artifact, chain0: seq<Tx>, chain: seq<Tx>)
    ensures var stored := ByProvider(start.jobs);
            var txs := TxsOf(c, all, stored);
            && (chain0 <= chain <= chain0 + txs ==> Between(c, all, start, chain0, chain))
            && (Finalizes(c, start, JobsOf(c, all, stored, |chain0|)) && chain == chain0 + txs + [FinalizeRaid] ==> Between(c, all, start, chain0, chain))
  {
    hide Finalizes, TxsOf, JobsOf, ByProvider;
  }

  lemma BetweenOnce(c: Config, all: seq<Allocation>, start: Artifact, chain0: seq<Tx>, chain: seq<Tx>)
    requires DistinctProviders(all) && Faithful(all, chain0, start) && Between(c, all, start, chain0, chain)
    ensures AtMostOnce(all, chain)
  {
    hide Faithful, AtMostOnce, Finalizes, TxsOf, JobsOf, ByProvider, Positions;
    var stored := ByProvider(start.jobs);
    var run, jobs := TxsOf(c, all, stored), JobsOf(c, all, stored, |chain0|);
    var send := Finalizes(c, start, jobs);
    var whole := chain0 + run + (if send then [FinalizeRaid] else []);
    assert whole == chain0 + Sent(c, all, start, |chain0|);
    var record := start.(jobs := jobs, hashes := start.hashes + Positions(|chain0|, |run|) + (if send then [|chain0| + |run|] else []),
                         finalizeHash := if send then Some(|chain0| + |run|) else start.finalizeHash);
    FaithfulShort(all, chain0, start);
    FinishFaithful(c, all, chain0, start, record, whole);
    FaithfulOnce(all, whole, record);
    OncePrefix(all, chain, whole);
  }

  lemma ThrownTo(c: Config, all: seq<Allocation>, start: Artifact, chain0: seq<Tx>, chain: seq<Tx>,
                 file0: Option<Artifact>, file: Option<Artifact>, written: nat, n: nat, jobIds: seq<nat>)
    requires DistinctProviders(all) && n <= |all| && Between(c, all, start, chain0, chain)
    requires || file == file0
             || (file == Some(CheckpointAt(c, all, ByProvider(start.jobs), |chain0|, start, n, jobIds))
                 && written <= |chain| && chain[..written] == chain0 + TxsOf(c, all[..n], ByProvider(start.jobs)))
    ensures ResumedTo(c, all, start, Thrown, chain0, chain, file0, file)
    ensures file == Some(CheckpointAt(c, all, ByProvider(start.jobs), |chain0|, start, n, jobIds))
            && written <= |chain| && chain[..written] == chain0 + TxsOf(c, all[..n], ByProvider(start.jobs)) ==>
            IsCheckpoint(c, all, start, chain0, chain, file, written)
  {
    hide Faithful, AtMostOnce, TxsOf, CheckpointAt, ByProvider, Between;
    if Faithful(all, chain0, start) {
      BetweenOnce(c, all, start, chain0, chain);
    }
    WrittenIs(c, all, ByProvider(start.jobs), n, chain0, start, chain, file, written, jobIds);
    if file != file0 {
      assert IsCheckpoint(c, all, start, chain0, chain, file, written);
    }
  }

  /** What an execution comes to, from its first checkpoint on. */
  lemma ExecutedIs(c: Config, all: seq<Allocation>, before: seq<Tx>, first: Artifact, outcome: Outcome, chain0: seq<Tx>,
                   chain: seq<Tx>, file: Option<Artifact>, written: nat)
    requires DistinctProviders(all) && chain0 == before + [CreateRaid] && first.jobs == [] && first.finalizeHash.None?
    requires first.onchain && first.status.Partial? && !outcome.Undefined?
    requires ResumedTo(c, all, first, outcome, chain0, chain, Some(first), file)
    requires outcome.Thrown? ==> (file == Some(first) && written == |chain0|) || IsCheckpoint(c, all, first, chain0, chain, file, written)
    ensures chain0 <= chain
    ensures outcome.Done? ==>
              && |outcome.record.jobs| == |all| && (before == [] ==> Faithful(all, chain, outcome.record))
              && outcome.record.onchain && file == Some(outcome.record)
              && outcome.record.status == (if AllTerminal(outcome.record.jobs) && outcome.record.finalizeHash.Some? then Terminal else Partial)
    ensures outcome.Thrown? ==>
              && (before == [] ==> AtMostOnce(all, chain))
              && file.Some? && file.value.onchain && file.value.status.Partial? && written <= |chain|
              && (before == [] ==> Faithful(all, chain[..written], file.value))
  {
    hide Faithful, AtMostOnce, TxsOf, JobsOf, ByProvider, AllTerminal, Positions;
    if before == [] {
      assert chain0 == [CreateRaid];
      Started(all, first);
    }
    if outcome.Thrown? {
      assert chain[..|chain0|] == chain0;
      if file != Some(first) || written != |chain0| {
        var n: nat, jobIds :| n <= |all| && WrittenAt(c, all, ByProvider(first.jobs), n, chain0, first, chain, file, written, jobIds);
        if before == [] {
          RunFaithful(c, all, chain0, first, n, jobIds);
        }
      }
    }
  }

  lemma DoneTo(c: Config, all: seq<Allocation>, start: Artifact, chain0: seq<Tx>, chain: seq<Tx>, file0: Option<Artifact>, record: Artifact)
    requires DistinctProviders(all)
    requires var stored := ByProvider(start.jobs);
             var run := TxsOf(c, all, stored);
             var send := start.finalizeHash.None? && (AllTerminal(record.jobs) || !c.requireTerminal);
             && record.jobs == JobsOf(c, all, stored, |chain0|) && record.onchain
             && chain == chain0 + run + (if send then [FinalizeRaid] else [])
             && record.hashes == start.hashes + Positions(|chain0|, |run|) + (if send then [|chain0| + |run|] else [])
             && record.finalizeHash == (if send then Some(|chain0| + |run|) else start.finalizeHash)
             && record.status == (if AllTerminal(record.jobs) && record.finalizeHash.Some? then Terminal else Partial)
    ensures ResumedTo(c, all, start, Done(record), chain0, chain, file0, Some(record))
  {
    hide Faithful, TxsOf, JobsOf, ByProvider, Positions, AllTerminal;
    FinalizesIs(c, start, record.jobs);
    assert chain == chain0 + Sent(c, all, start, |chain0|);
    if Faithful(all, chain0, start) {
      FaithfulShort(all, chain0, start);
      FinishFaithful(c, all, chain0, start, record, chain);
    }
  }

  lemma CheckpointDepends(c: Config, allocations: seq<Allocation>, stored: Stored, base: Hash, a: Artifact, b: Artifact, n: nat, jobIds: seq<nat>)
    requires n <= |allocations| && a.raidRef == b.raidRef && a.finalizeHash == b.finalizeHash && a.hashes == b.hashes
    ensures CheckpointAt(c, allocations, stored, base, a, n, jobIds) == CheckpointAt(c, allocations, stored, base, b, n, jobIds)
  {
  }

  lemma NoStored(jobs: seq<Job>)
    requires jobs == []
    ensures ByProvider(jobs) == map[]
  {
  }

  lemma FinalizesIs(c: Config, existing: Artifact, jobs: seq<Job>)
    ensures Finalizes(c, existing, jobs) <==> existing.finalizeHash.None? && (AllTerminal(jobs) || !c.requireTerminal)
  {
  }

  lemma StoredJobsAre(file: Option<Artifact>, existing: Artifact)
    ensures StoredJobsOf(file, existing) == if file.Some? then file.value.jobs else existing.jobs
  {
  }

  lemma {:induction false} PositionsAppend(base: Hash, n: nat, m: nat)
    ensures Positions(base, n) + Positions(base + n, m) == Positions(base, n + m)
  {
    if m > 0 {
      PositionsAppend(base, n, m - 1);
    }
  }

  lemma TxsGrow(c: Config, allocations: seq<Allocation>, stored: Stored, k: nat)
    requires k < |allocations|
    ensures TxsOf(c, allocations[..k + 1], stored) <= TxsOf(c, allocations, stored)
    decreases |allocations|
  {
    hide Plan, Txs;
    var n := |allocations| - 1;
    if k < n {
      assert allocations[..n][..k + 1] == allocations[..k + 1];
      TxsGrow(c, allocations[..n], stored, k);
    } else {
      assert allocations[..k + 1] == allocations;
    }
  }

  lemma InterruptedWithin(before: seq<Tx>, after: seq<Tx>, kinds: seq<Kind>, p: ProviderId)
    requires Interrupted(before, after, kinds, p)
    ensures before <= after <= before + Txs(kinds, p)
  {
    var n: nat :| n < |kinds| && after == before + Txs(kinds[..n], p);
    assert Txs(kinds[..n], p) == Txs(kinds, p)[..n];
  }

  lemma NothingSent(allocations: seq<Allocation>, chain: seq<Tx>)
    requires chain == []
    ensures AtMostOnce(allocations, chain)
  {
    assert multiset(chain) == multiset{};
  }

  lemma Started(allocations: seq<Allocation>, start: Artifact)
    requires start.jobs == [] && start.finalizeHash.None?
    ensures Faithful(allocations, [CreateRaid], start)
  {
    forall i, k | 0 <= i < |allocations|
      ensures multiset([CreateRaid])[OfJob(k, allocations[i].provider)] == 0
    {
    }
  }

  lemma FaithfulShort(allocations: seq<Allocation>, chain: seq<Tx>, art: Artifact)
    requires Faithful(allocations, chain, art)
    ensures |art.jobs| <= |allocations|
  {
  }

  lemma OncePrefix(allocations: seq<Allocation>, chain: seq<Tx>, whole: seq<Tx>)
    requires AtMostOnce(allocations, whole) && chain <= whole
    ensures AtMostOnce(allocations, chain)
  {
    OnceBefore(allocations, whole, |chain|);
    assert whole[..|chain|] == chain;
  }

  /** All checkpoints from the last stored job on, and the log at that time. */
  lemma RunFaithful(c: Config, allocations: seq<Allocation>, chain: seq<Tx>, start: Artifact, n: nat, jobIds: seq<nat>)
    requires DistinctProviders(allocations) && Faithful(allocations, chain, start) && |start.jobs| <= n <= |allocations|
    ensures var stored := ByProvider(start.jobs);
            && Faithful(allocations, chain + TxsOf(c, allocations[..n], stored), CheckpointAt(c, allocations, stored, |chain|, start, n, jobIds))
            && (n == |allocations| ==> AtMostOnce(allocations, chain + TxsOf(c, allocations, stored)))
  {
    hide Faithful, AtMostOnce, TxsOf, JobsOf, Positions;
    CheckpointFaithful(c, allocations, chain, start, n, jobIds);
    FaithfulOnce(allocations, chain + TxsOf(c, allocations[..n], ByProvider(start.jobs)),
                 CheckpointAt(c, allocations, ByProvider(start.jobs), |chain|, start, n, jobIds));
    if n == |allocations| {
      assert allocations[..n] == allocations;
    }
  }

  /** The end of a run. */
  lemma FinishFaithful(c: Config, allocations: seq<Allocation>, chain: seq<Tx>, start: Artifact, record: Artifact, chain': seq<Tx>)
    requires DistinctProviders(allocations) && Faithful(allocations, chain, start) && |start.jobs| <= |allocations|
    requires var stored := ByProvider(start.jobs);
             var run := TxsOf(c, allocations, stored);
             var send := Finalizes(c, start, record.jobs);
             && record.jobs == JobsOf(c, allocations, stored, |chain|)
             && chain' == chain + run + (if send then [FinalizeRaid] else [])
             && record.hashes == start.hashes + Positions(|chain|, |run|) + (if send then [|chain| + |run|] else [])
             && record.finalizeHash == (if send then Some(|chain| + |run|) else start.finalizeHash)
    ensures Faithful(allocations, chain', record)
  {
    hide Faithful, TxsOf, JobsOf, Positions, ByProvider;
    RunFaithful(c, allocations, chain, start, |allocations|, record.jobIds);
    assert allocations[..|allocations|] == allocations;
    var stored := ByProvider(start.jobs);
    FinalizedFaithful(allocations, chain + TxsOf(c, allocations, stored),
                      CheckpointAt(c, allocations, stored, |chain|, start, |allocations|, record.jobIds), record, chain',
                      Finalizes(c, start, record.jobs));
  }

  lemma FinalizedFaithful(allocations: seq<Allocation>, chain: seq<Tx>, art: Artifact, record: Artifact, chain': seq<Tx>, send: bool)
    requires Faithful(allocations, chain, art) && record.jobs == art.jobs && (send ==> art.finalizeHash.None?)
    requires chain' == chain + (if send then [FinalizeRaid] else [])
    requires record.hashes == art.hashes + (if send then [|chain|] else [])
    requires record.finalizeHash == if send then Some(|chain|) else art.finalizeHash
    ensures Faithful(allocations, chain', record)
  {
    hide JobOk;
    var v := ViewOf(allocations, art.jobs);
    forall i, k | 0 <= i < |v|
      ensures multiset(chain')[OfJob(k, allocations[i].provider)] == multiset(chain)[OfJob(k, allocations[i].provider)]
    {
    }
    forall i, k | 0 <= i < |v| && Has(v[i], k)
      ensures var h := v[i].value.hashes[k]; h < |chain'| && chain'[h] == OfJob(k, allocations[i].provider)
    {
      var h := v[i].value.hashes[k];
      assert h < |chain| && chain[h] == OfJob(k, allocations[i].provider);
    }
  }


  lemma StateIs(st: ExecutionState, status: Lifecycle)
    ensures st.Snapshot(status) == Artifact(true, status, st.raidRef, st.jobs, st.finalizeHash, st.hashes, st.jobIds)
  {
  }

  // ----- the loop over the allocations

  /** The first `k` allocations are done. */
  ghost predicate RunAt(c: Config, allocations: seq<Allocation>, stored: Stored, k: nat, chain0: seq<Tx>, start: Artifact,
                        chain: seq<Tx>, jobs: seq<Job>, hashes: seq<Hash>)
    requires k <= |allocations|
  {
    var txs := TxsOf(c, allocations[..k], stored);
    && chain == chain0 + txs && jobs == JobsOf(c, allocations[..k], stored, |chain0|)
    && hashes == start.hashes + Positions(|chain0|, |txs|)
  }

  /** The artifact is the checkpoint after the first `n` allocations. */
  ghost predicate WrittenAt(c: Config, allocations: seq<Allocation>, stored: Stored, n: nat, chain0: seq<Tx>, start: Artifact,
                            chain: seq<Tx>, file: Option<Artifact>, written: nat, jobIds: seq<nat>)
    requires n <= |allocations|
  {
    && file == Some(CheckpointAt(c, allocations, stored, |chain0|, start, n, jobIds))
    && written <= |chain| && chain[..written] == chain0 + TxsOf(c, allocations[..n], stored)
  }

  lemma WrittenIs(c: Config, allocations: seq<Allocation>, stored: Stored, n: nat, chain0: seq<Tx>, start: Artifact,
                  chain: seq<Tx>, file: Option<Artifact>, written: nat, jobIds: seq<nat>)
    requires n <= |allocations|
    ensures WrittenAt(c, allocations, stored, n, chain0, start, chain, file, written, jobIds) <==>
            && file == Some(CheckpointAt(c, allocations, stored, |chain0|, start, n, jobIds))
            && written <= |chain| && chain[..written] == chain0 + TxsOf(c, allocations[..n], stored)
  {
  }

  lemma RunStarts(c: Config, allocations: seq<Allocation>, stored: Stored, chain: seq<Tx>, start: Artifact)
    ensures start.jobs == [] ==> RunAt(c, allocations, stored, 0, chain, start, chain, start.jobs, start.hashes)
  {
    assert chain + [] == chain && start.hashes + [] == start.hashes;
  }

  lemma SkippedIn(stored: Stored, p: ProviderId)
    requires Skipped(stored, p)
    ensures p in stored
  {
  }

  lemma OneMore(c: Config, allocations: seq<Allocation>, stored: Stored, k: nat, base: Hash)
    requires k < |allocations|
    ensures var a := allocations[k];
            var e := Lookup(stored, a.provider);
            var txs := TxsOf(c, allocations[..k], stored);
            && TxsOf(c, allocations[..k + 1], stored)
               == txs + (if Skipped(stored, a.provider) then [] else Txs(Plan(c, a, e), a.provider))
            && JobsOf(c, allocations[..k + 1], stored, base)
               == JobsOf(c, allocations[..k], stored, base)
                  + [if Skipped(stored, a.provider) then stored[a.provider] else Processed(c, a, e, base + |txs|)]
  {
    hide Plan, Txs, Processed;
    assert allocations[..k + 1][..k] == allocations[..k];
  }

  /** What one more allocation adds. */
  lemma RunNext(c: Config, allocations: seq<Allocation>, stored: Stored, k: nat, chain0: seq<Tx>, start: Artifact,
                chain: seq<Tx>, jobs: seq<Job>, hashes: seq<Hash>)
    requires k < |allocations| && RunAt(c, allocations, stored, k, chain0, start, chain, jobs, hashes)
    ensures var a := allocations[k];
            var plan := Plan(c, a, Lookup(stored, a.provider));
            if Skipped(stored, a.provider)
            then a.provider in stored && RunAt(c, allocations, stored, k + 1, chain0, start, chain, jobs + [stored[a.provider]], hashes)
            else RunAt(c, allocations, stored, k + 1, chain0, start, chain + Txs(plan, a.provider),
                       jobs + [Processed(c, a, Lookup(stored, a.provider), |chain|)], hashes + Positions(|chain|, |plan|))
  {
    hide Plan, Txs, Processed, Positions, TxsOf, JobsOf, Skipped, Lookup;
    var a := allocations[k];
    var txs := TxsOf(c, allocations[..k], stored);
    OneMore(c, allocations, stored, k, |chain0|);
    if Skipped(stored, a.provider) {
      SkippedIn(stored, a.provider);
      AppendNothing(txs);
    } else {
      var plan := Plan(c, a, Lookup(stored, a.provider));
      PositionsAppend(|chain0|, |txs|, |plan|);
      Associative(chain0, txs, Txs(plan, a.provider));
      Associative(start.hashes, Positions(|chain0|, |txs|), Positions(|chain|, |plan|));
    }
  }

  lemma RunInterrupted(c: Config, allocations: seq<Allocation>, stored: Stored, k: nat, chain0: seq<Tx>, start: Artifact,
                       chain1: seq<Tx>, chain: seq<Tx>, jobs: seq<Job>, hashes: seq<Hash>,
                       n: nat, file: Option<Artifact>, written: nat, jobIds: seq<nat>)
    requires k < |allocations| && n <= |allocations| && !Skipped(stored, allocations[k].provider)
    requires RunAt(c, allocations, stored, k, chain0, start, chain1, jobs, hashes)
    requires Interrupted(chain1, chain, Plan(c, allocations[k], Lookup(stored, allocations[k].provider)), allocations[k].provider)
    ensures chain0 <= chain <= chain0 + TxsOf(c, allocations, stored)
    ensures WrittenAt(c, allocations, stored, n, chain0, start, chain1, file, written, jobIds) ==>
            WrittenAt(c, allocations, stored, n, chain0, start, chain, file, written, jobIds)
  {
    hide Plan, Txs, Processed, Positions, TxsOf, JobsOf, CheckpointAt;
    var a := allocations[k];
    var plan := Plan(c, a, Lookup(stored, a.provider));
    InterruptedWithin(chain1, chain, plan, a.provider);
    TxsGrow(c, allocations, stored, k);
    OneMore(c, allocations, stored, k, |chain0|);
    assert chain0 + TxsOf(c, allocations[..k + 1], stored) == chain1 + Txs(plan, a.provider);
    if written <= |chain1| {
      assert chain[..written] == chain1[..written];
    }
  }

  /** A checkpoint that could not be written leaves the one before. */
  lemma RunUnwritten(c: Config, allocations: seq<Allocation>, stored: Stored, k: nat, chain0: seq<Tx>, start: Artifact,
                     chain1: seq<Tx>, chain: seq<Tx>, jobs: seq<Job>, hashes: seq<Hash>,
                     n: nat, file: Option<Artifact>, written: nat, jobIds: seq<nat>)
    requires k < |allocations| && n <= |allocations| && chain1 <= chain
    requires RunAt(c, allocations, stored, k + 1, chain0, start, chain, jobs, hashes)
    ensures chain0 <= chain <= chain0 + TxsOf(c, allocations, stored)
    ensures WrittenAt(c, allocations, stored, n, chain0, start, chain1, file, written, jobIds) ==>
            WrittenAt(c, allocations, stored, n, chain0, start, chain, file, written, jobIds)
  {
    hide Plan, Txs, Processed, Positions, TxsOf, JobsOf, CheckpointAt;
    TxsGrow(c, allocations, stored, k);
    if written <= |chain1| {
      assert chain[..written] == chain1[..written];
    }
  }

  lemma JustWritten(c: Config, allocations: seq<Allocation>, stored: Stored, n: nat, chain0: seq<Tx>, start: Artifact,
                    chain: seq<Tx>, jobs: seq<Job>, hashes: seq<Hash>, file: Option<Artifact>, written: nat, jobIds: seq<nat>)
    requires n <= |allocations| && RunAt(c, allocations, stored, n, chain0, start, chain, jobs, hashes) && written == |chain|
    requires file == Some(Artifact(true, Partial, start.raidRef, jobs, start.finalizeHash, hashes, jobIds))
    ensures WrittenAt(c, allocations, stored, n, chain0, start, chain, file, written, jobIds)
  {
    hide Plan, Txs, Processed, Positions;
    assert chain[..written] == chain;
  }

  lemma RunEnds(c: Config, allocations: seq<Allocation>, stored: Stored, chain0: seq<Tx>, start: Artifact,
                chain: seq<Tx>, jobs: seq<Job>, hashes: seq<Hash>)
    requires RunAt(c, allocations, stored, |allocations|, chain0, start, chain, jobs, hashes)
    ensures chain == chain0 + TxsOf(c, allocations, stored) && jobs == JobsOf(c, allocations, stored, |chain0|)
    ensures hashes == start.hashes + Positions(|chain0|, |TxsOf(c, allocations, stored)|)
  {
    assert allocations[..|allocations|] == allocations;
  }

  lemma StoredItself(file: Option<Artifact>, record: Artifact)
    requires file == Some(record)
    ensures record.(jobs := StoredJobsOf(file, record)) == record
  {
  }

  /** A finished resume moves every stored job only forward, and keeps what is on record. */
  lemma ResumeForward(c: Config, allocations: seq<Allocation>, chain: seq<Tx>, start: Artifact, i: nat)
    requires DistinctProviders(allocations) && Faithful(allocations, chain, start) && i < |start.jobs|
    ensures |start.jobs| <= |allocations| && start.jobs[i].provider == allocations[i].provider
    ensures MovedOn(start.jobs[i], JobsOf(c, allocations, ByProvider(start.jobs), |chain|)[i])
  {
    hide Plan, Txs, TxsOf, Balanced, Listed, JobOk, Forward, JobsOf, ByProvider, Processed, MovedOn;
    var stored := ByProvider(start.jobs);
    JobProviders(allocations, chain, start.jobs);
    StoredJobs(allocations, start.jobs);
    var a := allocations[i];
    assert Lookup(stored, a.provider) == ViewOf(allocations, start.jobs)[i] == Some(start.jobs[i]);
    JobsOfAt(c, allocations, stored, |chain|, i);
    MovedOnItself(start.jobs[i]);
    ProcessedMovesOn(c, a, start.jobs[i], |chain| + |TxsOf(c, allocations[..i], stored)|);
  }

  predicate MovedOn(job: Job, next: Job) {
    && next.provider == job.provider && Forward(job.status, next.status)
    && forall k :: k in job.hashes ==> k in next.hashes && next.hashes[k] == job.hashes[k]
  }

  lemma MovedOnItself(job: Job)
    ensures MovedOn(job, job)
  {
  }

  lemma ProcessedMovesOn(c: Config, a: Allocation, job: Job, base: Hash)
    requires JobOk(a, job)
    ensures MovedOn(job, Processed(c, a, Some(job), base))
  {
    hide Plan, Forward;
    ProcessedOk(c, a, Some(job), base);
    forall k
      ensures Processed(c, a, Some(job), base).provider == a.provider
      ensures k in job.hashes ==>
                k in Processed(c, a, Some(job), base).hashes && Processed(c, a, Some(job), base).hashes[k] == job.hashes[k]
    {
      RecordAllHashes(Begin(c, a, Some(job)), Plan(c, a, Some(job)), base, k);
    }
  }

  lemma {:induction false} JobsOfAt(c: Config, allocations: seq<Allocation>, stored: Stored, base: Hash, i: nat)
    requires i < |allocations|
    ensures JobsOf(c, allocations, stored, base)[i] ==
            if Skipped(stored, allocations[i].provider) then stored[allocations[i].provider]
            else Processed(c, allocations[i], Lookup(stored, allocations[i].provider), base + |TxsOf(c, allocations[..i], stored)|)
    decreases |allocations|
  {
    hide Plan, Txs, Processed, TxsOf;
    var n := |allocations| - 1;
    if i < n {
      assert allocations[..n][..i] == allocations[..i];
      JobsOfAt(c, allocations[..n], stored, base, i);
    }
  }

  // ----- when a transaction is repeated

  /** How often a run sends a transaction of a job: once if the job is not skipped and the
      transaction is wanted and not on record. */
  lemma {:induction false} RunCount(c: Config, allocations: seq<Allocation>, stored: Stored, i: nat, k: Kind)
    requires DistinctProviders(allocations) && i < |allocations|
    ensures var a := allocations[i];
            multiset(TxsOf(c, allocations, stored))[OfJob(k, a.provider)]
            == if !Skipped(stored, a.provider) && Wanted(c, a, Lookup(stored, a.provider), k) then 1 else 0
    decreases |allocations|
  {
    hide Plan, Txs, Wanted, TxsOf, Skipped, Lookup;
    var n := |allocations| - 1;
    var b := allocations[n];
    LastCount(c, allocations, stored, allocations[i].provider, k);
    if i < n {
      RunCount(c, allocations[..n], stored, i, k);
      assert allocations[i].provider != b.provider;
    } else {
      OthersOnly(c, allocations[..n], stored, b.provider, k);
    }
  }

  /** What the last allocation adds to the count of one provider's transactions. */
  lemma LastCount(c: Config, allocations: seq<Allocation>, stored: Stored, p: ProviderId, k: Kind)
    requires allocations != []
    ensures var n := |allocations| - 1;
            var b := allocations[n];
            multiset(TxsOf(c, allocations, stored))[OfJob(k, p)]
            == multiset(TxsOf(c, allocations[..n], stored))[OfJob(k, p)]
               + if p == b.provider && !Skipped(stored, p) && Wanted(c, b, Lookup(stored, p), k) then 1 else 0
  {
    hide Plan, Txs, Wanted;
    var b := allocations[|allocations| - 1];
    var plan := Plan(c, b, Lookup(stored, b.provider));
    TxsCount(plan, b.provider, k, p);
    PlanCount(c, b, Lookup(stored, b.provider), k);
    PlanIs(c, b, Lookup(stored, b.provider), k);
  }

  lemma {:induction false} OthersOnly(c: Config, allocations: seq<Allocation>, stored: Stored, p: ProviderId, k: Kind)
    requires forall j :: 0 <= j < |allocations| ==> allocations[j].provider != p
    ensures multiset(TxsOf(c, allocations, stored))[OfJob(k, p)] == 0
  {
    hide Plan, Txs;
    if allocations != [] {
      var n := |allocations| - 1;
      OthersOnly(c, allocations[..n], stored, p, k);
      var b := allocations[n];
      TxsCount(Plan(c, b, Lookup(stored, b.provider)), b.provider, k, p);
    }
  }

  predicate Sends(c: Config, a: Allocation, stored: Stored, k: Kind) {
    !Skipped(stored, a.provider) && Wanted(c, a, Lookup(stored, a.provider), k)
  }

  /** Whether a run finalizes the raid at its end, as it can be told before: no finalization is on
      record, and all jobs are terminal, will be completed or will be rejected. */
  predicate WillFinalize(c: Config, allocations: seq<Allocation>, start: Artifact) {
    var stored := ByProvider(start.jobs);
    && start.finalizeHash.None?
    && (!c.requireTerminal
        || forall i :: 0 <= i < |allocations| ==>
             || Skipped(stored, allocations[i].provider)
             || Sends(c, allocations[i], stored, Complete) || Sends(c, allocations[i], stored, Reject))
  }

  lemma WillFinalizeIff(c: Config, allocations: seq<Allocation>, start: Artifact, base: Hash)
    ensures WillFinalize(c, allocations, start) <==> Finalizes(c, start, JobsOf(c, allocations, ByProvider(start.jobs), base))
  {
    hide TxsOf, JobsOf, Processed, Wanted, ByProvider;
    var stored := ByProvider(start.jobs);
    var jobs := JobsOf(c, allocations, stored, base);
    forall i | 0 <= i < |allocations|
      ensures TerminalJob(jobs[i].status) <==>
              || Skipped(stored, allocations[i].provider)
              || Sends(c, allocations[i], stored, Complete) || Sends(c, allocations[i], stored, Reject)
    {
      var a := allocations[i];
      JobsOfAt(c, allocations, stored, base, i);
      if !Skipped(stored, a.provider) {
        EndsTerminalIff(c, a, Lookup(stored, a.provider), base + |TxsOf(c, allocations[..i], stored)|);
      }
    }
  }

  /** A job that is processed ends terminal exactly when it is completed or rejected. */
  lemma EndsTerminalIff(c: Config, a: Allocation, e: Option<Job>, base: Hash)
    requires e.Some? ==> !TerminalJob(e.value.status)
    ensures TerminalJob(Processed(c, a, e, base).status) <==> Wanted(c, a, e, Complete) || Wanted(c, a, e, Reject)
  {
    hide Plan;
    StatusAfter(Begin(c, a, e), Plan(c, a, e), base);
    PlanStatus(c, a, e, Begin(c, a, e).status);
  }

  /** Nothing that a run would send is in the log already. */
  ghost predicate NothingRepeated(c: Config, allocations: seq<Allocation>, start: Artifact, chain: seq<Tx>) {
    && (forall i, k :: 0 <= i < |allocations| && Sends(c, allocations[i], ByProvider(start.jobs), k) ==>
          OfJob(k, allocations[i].provider) !in chain)
    && (WillFinalize(c, allocations, start) ==> FinalizeRaid !in chain)
  }

  /** How often a run sends each transaction. */
  lemma SentCount(c: Config, allocations: seq<Allocation>, start: Artifact, base: Hash)
    requires DistinctProviders(allocations)
    ensures var sent := multiset(Sent(c, allocations, start, base));
            && sent[CreateRaid] == 0 && sent[FinalizeRaid] == (if WillFinalize(c, allocations, start) then 1 else 0)
            && forall i, k :: 0 <= i < |allocations| ==>
                 sent[OfJob(k, allocations[i].provider)] == if Sends(c, allocations[i], ByProvider(start.jobs), k) then 1 else 0
  {
    hide TxsOf, JobsOf, Wanted, Skipped, ByProvider, Finalizes;
    var stored := ByProvider(start.jobs);
    NoCommon(c, allocations, stored);
    WillFinalizeIff(c, allocations, start, base);
    forall i, k | 0 <= i < |allocations|
      ensures multiset(TxsOf(c, allocations, stored))[OfJob(k, allocations[i].provider)]
           == if Sends(c, allocations[i], stored, k) then 1 else 0
    {
      RunCount(c, allocations, stored, i, k);
    }
  }

  // ----- what a run sends, and what it comes to

  /** A run sends what is allowed for each allocation whose job is not terminal yet, nothing for the
      others, and otherwise at most the finalization. */
  ghost predicate RunAllowed(c: Config, all: seq<Allocation>, stored: Stored, sent: seq<Tx>) {
    && (forall i :: 0 <= i < |all| ==> Allowed(c, all[i], Lookup(stored, all[i].provider), sent))
    && (forall i, k :: 0 <= i < |all| && all[i].provider in stored ==>
          var s := stored[all[i].provider].status; s.Completed? || s.Rejected? || s.Expired? ==> OfJob(k, all[i].provider) !in sent)
    && forall t :: t in sent ==> t == FinalizeRaid || (t.OfJob? && exists i :: 0 <= i < |all| && all[i].provider == t.provider)
  }

  /** Every allocation has its job: the stored one if it was terminal, else what processing comes to. */
  ghost predicate RunFulfilled(c: Config, all: seq<Allocation>, stored: Stored, jobs: seq<Job>) {
    && |jobs| == |all|
    && forall i :: 0 <= i < |all| ==>
         var p := all[i].provider;
         if p in stored && (var s := stored[p].status; s.Completed? || s.Rejected? || s.Expired?) then jobs[i] == stored[p]
         else (p in stored ==> JobOk(all[i], stored[p])) ==> Fulfilled(c, all[i], Lookup(stored, p), jobs[i])
  }

  ghost predicate AllRecorded(stored: Stored, chain: seq<Tx>) {
    forall p :: p in stored ==> Recorded(Some(stored[p]), p, chain)
  }

  lemma {:induction false} OnlyTheirs(c: Config, all: seq<Allocation>, stored: Stored, t: Tx)
    requires t in TxsOf(c, all, stored)
    ensures t.OfJob? && exists i :: 0 <= i < |all| && all[i].provider == t.provider
  {
    hide Plan;
    if all != [] {
      var n := |all| - 1;
      if t in TxsOf(c, all[..n], stored) {
        OnlyTheirs(c, all[..n], stored, t);
        var i: nat :| i < n && all[..n][i].provider == t.provider;
        assert all[i].provider == t.provider;
      }
    }
  }

  lemma RunIsAllowed(c: Config, all: seq<Allocation>, start: Artifact, base: Hash, sent: seq<Tx>)
    requires DistinctProviders(all) && sent <= Sent(c, all, start, base)
    ensures RunAllowed(c, all, ByProvider(start.jobs), sent)
  {
    hide TxsOf, JobsOf, Allowed, Lookup, ByProvider, Finalizes, Wanted, WillFinalize, DistinctProviders;
    var stored := ByProvider(start.jobs);
    SentCount(c, all, start, base);
    forall i, k | 0 <= i < |all| && OfJob(k, all[i].provider) in sent
      ensures Sends(c, all[i], stored, k)
    {
      assert OfJob(k, all[i].provider) in multiset(Sent(c, all, start, base));
    }
    forall i | 0 <= i < |all|
      ensures Allowed(c, all[i], Lookup(stored, all[i].provider), sent)
    {
      PlanAllowed(c, all[i], Lookup(stored, all[i].provider), sent);
    }
    forall t | t in sent
      ensures t == FinalizeRaid || (t.OfJob? && exists i :: 0 <= i < |all| && all[i].provider == t.provider)
    {
      if t != FinalizeRaid {
        OnlyTheirs(c, all, stored, t);
      }
    }
  }

  lemma RunIsFulfilled(c: Config, all: seq<Allocation>, stored: Stored, base: Hash)
    ensures RunFulfilled(c, all, stored, JobsOf(c, all, stored, base))
  {
    hide TxsOf, JobsOf, Fulfilled, JobOk, Processed;
    forall i | 0 <= i < |all|
      ensures var p := all[i].provider;
              var job := JobsOf(c, all, stored, base)[i];
              if Skipped(stored, p) then job == stored[p]
              else (p in stored ==> JobOk(all[i], stored[p])) ==> Fulfilled(c, all[i], Lookup(stored, p), job)
    {
      var p := all[i].provider;
      JobsOfAt(c, all, stored, base, i);
      if !Skipped(stored, p) && (p in stored ==> JobOk(all[i], stored[p])) {
        ProcessedFulfils(c, all[i], Lookup(stored, p), base + |TxsOf(c, all[..i], stored)|);
      }
    }
  }

  lemma {:induction false} RunOrdered(c: Config, all: seq<Allocation>, stored: Stored, chain: seq<Tx>)
    requires LogOrdered(chain) && AllRecorded(stored, chain)
    ensures LogOrdered(chain + TxsOf(c, all, stored))
  {
    hide Plan, Txs, LogOrdered, Recorded, Skipped;
    if all == [] {
      assert chain + [] == chain;
    } else {
      var n := |all| - 1;
      var a := all[n];
      RunOrdered(c, all[..n], stored, chain);
      var before := chain + TxsOf(c, all[..n], stored);
      if Skipped(stored, a.provider) {
        AppendNothing(TxsOf(c, all[..n], stored));
      } else {
        RecordedNow(stored, chain, TxsOf(c, all[..n], stored), a.provider);
        PlanInOrder(c, a, Lookup(stored, a.provider), before);
        Associative(chain, TxsOf(c, all[..n], stored), Txs(Plan(c, a, Lookup(stored, a.provider)), a.provider));
      }
    }
  }

  lemma RecordedNow(stored: Stored, chain: seq<Tx>, more: seq<Tx>, p: ProviderId)
    requires AllRecorded(stored, chain)
    ensures Recorded(Lookup(stored, p), p, chain + more)
  {
    if p in stored {
      RecordedMore(Some(stored[p]), p, chain, more);
    }
  }

  lemma PlanInOrder(c: Config, a: Allocation, e: Option<Job>, chain: seq<Tx>)
    requires LogOrdered(chain) && Recorded(e, a.provider, chain)
    ensures LogOrdered(chain + Txs(Plan(c, a, e), a.provider))
  {
    PlanOrdered(c, a, e, |ORDER|, chain);
  }

  lemma NothingAllowed(c: Config, all: seq<Allocation>, chain: seq<Tx>)
    ensures RunAllowed(c, all, map[], (chain + [CreateRaid])[|chain| + 1..])
    ensures LogOrdered(chain) ==> LogOrdered(chain + [CreateRaid])
  {
    hide LogOrdered;
    if LogOrdered(chain) {
      OrderedMore(chain, CreateRaid);
    }
  }

  lemma NothingOrdered(chain: seq<Tx>)
    requires chain == []
    ensures LogOrdered(chain)
  {
  }

  lemma NoneRecorded(chain: seq<Tx>)
    ensures AllRecorded(map[], chain)
  {
  }

  /** A faithful artifact has on record only what was sent. */
  lemma FaithfulRecorded(all: seq<Allocation>, chain: seq<Tx>, art: Artifact)
    requires DistinctProviders(all) && Faithful(all, chain, art)
    ensures AllRecorded(ByProvider(art.jobs), chain)
  {
    hide JobOk, Listed;
    JobProviders(all, chain, art.jobs);
    StoredJobs(all, art.jobs);
    var stored := ByProvider(art.jobs);
    forall p | p in stored
      ensures Recorded(Some(stored[p]), p, chain)
    {
      var i: nat :| i < |art.jobs| && art.jobs[i] == stored[p];
      JobRecorded(all, chain, ViewOf(all, art.jobs), i);
      KeyedByProvider(art.jobs, p);
    }
  }

  lemma {:induction false} KeyedByProvider(jobs: seq<Job>, p: ProviderId)
    requires p in ByProvider(jobs)
    ensures ByProvider(jobs)[p].provider == p
  {
    if jobs != [] && jobs[|jobs| - 1].provider != p {
      KeyedByProvider(jobs[..|jobs| - 1], p);
    }
  }

  lemma JobRecorded(all: seq<Allocation>, chain: seq<Tx>, v: View, i: nat)
    requires Balanced(all, chain, v) && i < |v| && v[i].Some?
    ensures Recorded(v[i], all[i].provider, chain) && v[i].value.provider == all[i].provider
  {
    var job := v[i].value;
    assert JobOk(all[i], job);
    forall k | k in job.hashes
      ensures OfJob(k, all[i].provider) in chain
    {
      assert Has(v[i], k);
    }
  }

  /** What a resume, or the rest of an execution, sent and came to. */
  lemma ResumedRight(c: Config, all: seq<Allocation>, start: Artifact, outcome: Outcome, chain0: seq<Tx>, chain: seq<Tx>,
                     file0: Option<Artifact>, file: Option<Artifact>)
    requires DistinctProviders(all) && ResumedTo(c, all, start, outcome, chain0, chain, file0, file)
    ensures chain0 <= chain && RunAllowed(c, all, ByProvider(start.jobs), chain[|chain0|..])
    ensures outcome.Done? ==> RunFulfilled(c, all, ByProvider(start.jobs), outcome.record.jobs)
    ensures LogOrdered(chain0) && AllRecorded(ByProvider(start.jobs), chain0) ==> LogOrdered(chain)
  {
    hide Faithful, AtMostOnce, TxsOf, JobsOf, ByProvider, AllTerminal, IsCheckpoint, RunAllowed, RunFulfilled, LogOrdered, AllRecorded, Finalizes;
    var stored, sent := ByProvider(start.jobs), chain[|chain0|..];
    assert chain == chain0 + sent && sent <= Sent(c, all, start, |chain0|);
    RunIsAllowed(c, all, start, |chain0|, sent);
    RunIsFulfilled(c, all, stored, |chain0|);
    if LogOrdered(chain0) && AllRecorded(stored, chain0) {
      RunOrdered(c, all, stored, chain0);
      var whole := chain0 + TxsOf(c, all, stored);
      OrderedMore(whole, FinalizeRaid);
      assert chain <= whole + [FinalizeRaid];
      OrderedPrefix(chain, whole + [FinalizeRaid]);
    }
  }

  /** From any log and any artifact, faithful or not, a run repeats nothing exactly when every
      transaction of a job it wants, and the finalization if it will come to it, is not in the log
      yet. */
  lemma RunRepeatsNothingIff(c: Config, allocations: seq<Allocation>, start: Artifact, chain: seq<Tx>)
    requires DistinctProviders(allocations) && AtMostOnce(allocations, chain)
    ensures AtMostOnce(allocations, chain + Sent(c, allocations, start, |chain|)) <==> NothingRepeated(c, allocations, start, chain)
  {
    hide Sent, WillFinalize, Sends;
    SentCount(c, allocations, start, |chain|);
    assert forall t :: t in chain <==> multiset(chain)[t] > 0;
  }

  /** The same of a run that was cut anywhere: nothing it did send was in the log. */
  lemma CutRunRepeatsNothingIff(c: Config, allocations: seq<Allocation>, start: Artifact, chain: seq<Tx>, chain': seq<Tx>)
    requires DistinctProviders(allocations) && AtMostOnce(allocations, chain) && Between(c, allocations, start, chain, chain')
    ensures AtMostOnce(allocations, chain') <==> forall t :: t in chain'[|chain|..] ==> t !in chain
  {
    hide Sent, WillFinalize, Sends, AtMostOnce;
    var sent, cut := Sent(c, allocations, start, |chain|), chain'[|chain|..];
    SentCount(c, allocations, start, |chain|);
    assert chain' == chain + cut && cut <= sent;
    SentOnce(c, allocations, start, |chain|);
    if AtMostOnce(allocations, chain') {
      forall t | t in cut
        ensures t !in chain
      {
        CutCount(chain, cut, sent, t);
        SentAre(c, allocations, start, |chain|, t);
        OnceOf(allocations, chain', t);
      }
    }
    if forall t :: t in cut ==> t !in chain {
      OnceTogether(allocations, chain, cut, sent);
    }
  }

  /** When a resume has repeated something. */
  lemma ResumedRepeats(c: Config, all: seq<Allocation>, start: Artifact, outcome: Outcome, chain0: seq<Tx>, chain: seq<Tx>,
                       file0: Option<Artifact>, file: Option<Artifact>)
    requires DistinctProviders(all) && ResumedTo(c, all, start, outcome, chain0, chain, file0, file) && AtMostOnce(all, chain0)
    ensures AtMostOnce(all, chain) <==>
              if outcome.Done? then NothingRepeated(c, all, start, chain0) else forall t :: t in chain[|chain0|..] ==> t !in chain0
  {
    hide AtMostOnce, NothingRepeated, Sent, Between, Faithful, AllTerminal, IsCheckpoint;
    if outcome.Done? {
      RunRepeatsNothingIff(c, all, start, chain0);
    } else {
      CutRunRepeatsNothingIff(c, all, start, chain0, chain);
    }
  }

  lemma SentOnce(c: Config, allocations: seq<Allocation>, start: Artifact, base: Hash)
    requires DistinctProviders(allocations)
    ensures AtMostOnce(allocations, Sent(c, allocations, start, base))
  {
    hide Sent, WillFinalize, Sends;
    SentCount(c, allocations, start, base);
  }

  lemma OnceOf(allocations: seq<Allocation>, chain: seq<Tx>, t: Tx)
    requires AtMostOnce(allocations, chain)
    requires t == FinalizeRaid || exists i, k :: 0 <= i < |allocations| && t == OfJob(k, allocations[i].provider)
    ensures multiset(chain)[t] <= 1
  {
  }

  lemma CutCount(chain: seq<Tx>, cut: seq<Tx>, sent: seq<Tx>, t: Tx)
    requires cut <= sent
    ensures multiset(chain + cut)[t] == multiset(chain)[t] + multiset(cut)[t] && multiset(cut)[t] <= multiset(sent)[t]
    ensures (t in chain <==> multiset(chain)[t] > 0) && (t in cut <==> multiset(cut)[t] > 0) && (t in cut ==> t in sent)
  {
    assert sent == cut + sent[|cut|..];
    assert multiset(sent) == multiset(cut) + multiset(sent[|cut|..]);
  }

  lemma OnceTogether(allocations: seq<Allocation>, chain: seq<Tx>, cut: seq<Tx>, sent: seq<Tx>)
    requires AtMostOnce(allocations, chain) && AtMostOnce(allocations, sent) && cut <= sent && forall t :: t in cut ==> t !in chain
    ensures AtMostOnce(allocations, chain + cut)
  {
    forall t
      ensures multiset(chain + cut)[t] <= if t in cut then multiset(sent)[t] else multiset(chain)[t]
    {
      CutCount(chain, cut, sent, t);
    }
  }

  lemma SentAre(c: Config, allocations: seq<Allocation>, start: Artifact, base: Hash, t: Tx)
    requires t in Sent(c, allocations, start, base)
    ensures t == FinalizeRaid || exists i, k :: 0 <= i < |allocations| && t == OfJob(k, allocations[i].provider)
  {
    hide TxsOf, JobsOf, ByProvider, Finalizes;
    if t != FinalizeRaid {
      TxsAre(c, allocations, ByProvider(start.jobs), t);
    }
  }

  lemma {:induction false} TxsAre(c: Config, allocations: seq<Allocation>, stored: Stored, t: Tx)
    requires t in TxsOf(c, allocations, stored)
    ensures exists i, k :: 0 <= i < |allocations| && t == OfJob(k, allocations[i].provider)
  {
    hide Plan;
    var n := |allocations| - 1;
    if t in TxsOf(c, allocations[..n], stored) {
      TxsAre(c, allocations[..n], stored, t);
      var i, k :| 0 <= i < n && t == OfJob(k, allocations[..n][i].provider);
      assert t == OfJob(k, allocations[i].provider);
    } else {
      var plan := Plan(c, allocations[n], Lookup(stored, allocations[n].provider));
      var j: nat :| j < |plan| && t == Txs(plan, allocations[n].provider)[j];
      assert t == OfJob(plan[j], allocations[n].provider);
    }
  }

  /** A raid that is on the chain already is created again by every execution: it is so after a run
      that was cut before its first checkpoint. */
  lemma CreatedAgain(allocations: seq<Allocation>, chain: seq<Tx>, chain': seq<Tx>)
    requires CreateRaid in chain && chain + [CreateRaid] <= chain'
    ensures !AtMostOnce(allocations, chain')
  {
    assert multiset(chain)[CreateRaid] >= 1;
    assert chain' == chain + [CreateRaid] + chain'[|chain| + 1..];
    assert multiset(chain')[CreateRaid] >= 2;
  }

  /** A run that is cut between a transaction and the next checkpoint: the job is created again. */
  lemma CutAfterCreateRepeats(c: Config, a: Allocation, start: Artifact)
    requires start.jobs == []
    ensures var chain := [CreateRaid, OfJob(CreateJob, a.provider)];
            && AtMostOnce([a], chain) && !AtMostOnce([a], chain + Sent(c, [a], start, |chain|))
  {
    hide Sent, WillFinalize;
    var chain := [CreateRaid, OfJob(CreateJob, a.provider)];
    RunRepeatsNothingIff(c, [a], start, chain);
    assert [a][0].provider == a.provider && OfJob(CreateJob, [a][0].provider) in chain;
    assert Sends(c, [a][0], ByProvider(start.jobs), CreateJob);
  }

  /** A resume that is cut at its first checkpoint forgets the jobs stored after the first: the
      next run creates them again. */
  lemma CutResumeForgets(c: Config, d: Config, allocations: seq<Allocation>, chain: seq<Tx>, start: Artifact, n: nat, jobIds: seq<nat>)
    requires DistinctProviders(allocations) && Faithful(allocations, chain, start) && n < |start.jobs|
    ensures var stored := ByProvider(start.jobs);
            n <= |allocations| &&
            var chain1 := chain + TxsOf(c, allocations[..n], stored);
            var art := CheckpointAt(c, allocations, stored, |chain|, start, n, jobIds);
            !AtMostOnce(allocations, chain1 + Sent(d, allocations, art, |chain1|))
  {
    hide TxsOf, JobsOf, Balanced, JobOk, Listed, Sent, WillFinalize;
    var stored := ByProvider(start.jobs);
    var art := CheckpointAt(c, allocations, stored, |chain|, start, n, jobIds);
    var v := ViewOf(allocations, start.jobs);
    JobProviders(allocations, chain, start.jobs);
    StoredJobs(allocations, start.jobs);
    BalancedAt(c, allocations, stored, chain, v, n);
    var chain1 := chain + TxsOf(c, allocations[..n], stored);
    var w := ViewAt(c, allocations, stored, |chain|, v, n);
    CreatedOnce(allocations, chain1, w, n);
    ByProviderOwn(start.jobs);
    NotAmong(c, allocations, stored, |chain|, n);
    SentCount(d, allocations, art, |chain1|);
    assert Sends(d, allocations[n], ByProvider(art.jobs), CreateJob);
  }

  /** An execution that is cut between the finalization and the last write of the artifact: the
      last checkpoint knows all jobs, which are terminal, and no finalization; every later resume
      finalizes the raid again. */
  lemma CutAfterFinalizeRepeats(c: Config, d: Config, all: seq<Allocation>, first: Artifact, jobIds: seq<nat>)
    requires DistinctProviders(all) && first.jobs == [] && first.finalizeHash.None? && AllTerminal(JobsOf(c, all, map[], 1))
    ensures var chain := [CreateRaid] + Sent(c, all, first, 1);
            var art := CheckpointAt(c, all, map[], 1, first, |all|, jobIds);
            && ResumedTo(c, all, first, Thrown, [CreateRaid], chain, Some(first), Some(art))
            && AtMostOnce(all, chain) && Faithful(all, chain[..|chain| - 1], art)
            && Sent(d, all, art, |chain|) == [FinalizeRaid]
            && !AtMostOnce(all, chain + Sent(d, all, art, |chain|))
  {
    hide AtMostOnce, TxsOf, JobsOf, Faithful, CheckpointAt;
    NoStored(first.jobs);
    var run := TxsOf(c, all, map[]);
    var art := CheckpointAt(c, all, map[], 1, first, |all|, jobIds);
    var chain := [CreateRaid] + Sent(c, all, first, 1);
    assert chain == [CreateRaid] + run + [FinalizeRaid];
    assert chain[..|chain| - 1] == [CreateRaid] + run;
    Started(all, first);
    RunFaithful(c, all, [CreateRaid], first, |all|, jobIds);
    assert all[..|all|] == all;
    ThrownTo(c, all, first, [CreateRaid], chain, Some(first), Some(art), |chain| - 1, |all|, jobIds);
    LastCheckpoint(c, all, map[], 1, first, jobIds);
    JobsProviders(c, all, map[], 1);
    NothingLeft(d, all, art, |chain|);
    TwoFinalizations(all, chain);
  }

  lemma LastCheckpoint(c: Config, all: seq<Allocation>, stored: Stored, base: Hash, start: Artifact, jobIds: seq<nat>)
    ensures var art := CheckpointAt(c, all, stored, base, start, |all|, jobIds);
            art.jobs == JobsOf(c, all, stored, base) && art.finalizeHash == start.finalizeHash
  {
    assert all[..|all|] == all;
  }

  lemma TwoFinalizations(all: seq<Allocation>, chain: seq<Tx>)
    requires FinalizeRaid in chain
    ensures !AtMostOnce(all, chain + [FinalizeRaid])
  {
    assert multiset(chain)[FinalizeRaid] >= 1;
  }

  /** When all jobs are stored and terminal, only the finalization is left to be sent. */
  lemma NothingLeft(d: Config, all: seq<Allocation>, art: Artifact, base: Hash)
    requires DistinctProviders(all) && |art.jobs| == |all| && AllTerminal(art.jobs) && art.finalizeHash.None?
    requires forall i :: 0 <= i < |all| ==> art.jobs[i].provider == all[i].provider
    ensures Sent(d, all, art, base) == [FinalizeRaid]
  {
    hide TxsOf, JobsOf, ByProvider, Finalizes;
    var stored := ByProvider(art.jobs);
    StoredJobs(all, art.jobs);
    forall i | 0 <= i < |all|
      ensures Skipped(stored, all[i].provider)
    {
      assert Lookup(stored, all[i].provider) == ViewOf(all, art.jobs)[i] == Some(art.jobs[i]);
    }
    WillFinalizeIff(d, all, art, base);
    NothingSentFor(d, all, stored);
    assert [] + [FinalizeRaid] == [FinalizeRaid];
  }

  lemma {:induction false} NothingSentFor(d: Config, all: seq<Allocation>, stored: Stored)
    requires forall i :: 0 <= i < |all| ==> Skipped(stored, all[i].provider)
    ensures TxsOf(d, all, stored) == []
  {
    if all != [] {
      NothingSentFor(d, all[..|all| - 1], stored);
    }
  }

  lemma NotAmong(c: Config, allocations: seq<Allocation>, stored: Stored, base: Hash, n: nat)
    requires DistinctProviders(allocations) && n < |allocations|
    requires forall p :: p in stored ==> stored[p].provider == p
    ensures allocations[n].provider !in ByProvider(JobsOf(c, allocations[..n], stored, base))
  {
    hide TxsOf, JobsOf;
    var jobs := JobsOf(c, allocations[..n], stored, base);
    JobsProviders(c, allocations[..n], stored, base);
    forall i | 0 <= i < |jobs|
      ensures jobs[i].provider != allocations[n].provider
    {
      assert jobs[i].provider == allocations[..n][i].provider == allocations[i].provider;
    }
    ByProviderKeys(jobs, allocations[n].provider);
  }

  lemma {:induction false} ByProviderOwn(jobs: seq<Job>)
    ensures forall p :: p in ByProvider(jobs) ==> ByProvider(jobs)[p].provider == p
  {
    if jobs != [] {
      ByProviderOwn(jobs[..|jobs| - 1]);
    }
  }

  lemma {:induction false} ByProviderKeys(jobs: seq<Job>, p: ProviderId)
    requires forall i :: 0 <= i < |jobs| ==> jobs[i].provider != p
    ensures p !in ByProvider(jobs)
  {
    if jobs != [] {
      ByProviderKeys(jobs[..|jobs| - 1], p);
    }
  }

  lemma JobsProviders(c: Config, allocations: seq<Allocation>, stored: Stored, base: Hash)
    requires forall p :: p in stored ==> stored[p].provider == p
    ensures forall i :: 0 <= i < |allocations| ==> JobsOf(c, allocations, stored, base)[i].provider == allocations[i].provider
  {
    hide TxsOf, Plan;
    forall i | 0 <= i < |allocations|
      ensures JobsOf(c, allocations, stored, base)[i].provider == allocations[i].provider
    {
      var a := allocations[i];
      var e := Lookup(stored, a.provider);
      JobsOfAt(c, allocations, stored, base, i);
      RecordAllHashes(Begin(c, a, e), Plan(c, a, e), base + |TxsOf(c, allocations[..i], stored)|, Link);
    }
  }
}
