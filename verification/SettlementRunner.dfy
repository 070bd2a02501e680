/** When a raid is settled, and from what (apps/orchestrator/src/orchestrator-settlement-runner.ts).
    One settlement of a raid runs at a time. */
module SettlementRunner {
  import opened Options
  import opened Settlement

  /** `shouldRunSettlement`, for a raid that may be a root and may be final. */
  predicate ShouldRun(root: bool, final: bool, settlement: Option<Artifact>) {
    root && final && (settlement.None? || (settlement.value.status.Partial? && settlement.value.onchain))
  }

  /** What `recoverSettlementRecordFromArtifact` finds on entry, terminal and synthetic records
      included; and otherwise. */
  function Recovered(outputDir: bool, file: Option<Artifact>, includeTerminal: bool): Option<Artifact> {
    if !outputDir || file.None? then None
    else if file.value.status.Partial? || includeTerminal then file
    else None
  }

  /** The record a run starts from. */
  function Entry(outputDir: bool, file: Option<Artifact>, settlement: Option<Artifact>): Option<Artifact> {
    if settlement.Some? then settlement else Recovered(outputDir, file, true)
  }

  predicate ReachesResume(should: bool, privacyFails: bool, settlement: Option<Artifact>, entry: Option<Artifact>) {
    && should && !(settlement.None? && privacyFails)
    && entry.Some? && entry.value.status.Partial? && entry.value.onchain
  }

  predicate ReachesExecute(should: bool, privacyFails: bool, settlement: Option<Artifact>, entry: Option<Artifact>) {
    && should && !(settlement.None? && privacyFails)
    && (entry.None? || (entry.value.status.Partial? && !entry.value.onchain))
  }

  datatype Call = Call(config: Config, privacyFails: bool, restartBefore: bool)

  class Runner {
    const executor: Executor
    /** Whether a directory for artifacts is configured, the executor's own. */
    const outputDir: bool
    var root: bool
    var final: bool
    var settlement: Option<Artifact>
    ghost var executes: nat
    ghost var resumes: nat

    constructor (executor: Executor, outputDir: bool, root: bool, final: bool)
      ensures this.executor == executor && this.outputDir == outputDir && this.root == root && this.final == final
      ensures settlement.None? && executes == 0 && resumes == 0
    {
      this.executor, this.outputDir, this.root, this.final := executor, outputDir, root, final;
      settlement, executes, resumes := None, 0, 0;
    }

    /** The record of the raid, if it has one on chain, is the artifact. */
    ghost predicate Valid()
      reads this, executor
    {
      && (executor.file.Some? ==> executor.file.value.onchain && !executor.file.value.status.Synthetic?)
      && (outputDir && settlement.Some? && settlement.value.onchain ==> executor.file == settlement)
    }

    /** The process restarts and the record of the settlement is lost. */
    method Restart()
      requires Valid()
      modifies this`settlement
      ensures Valid() && settlement.None?
    {
      settlement := None;
    }

    /** Nothing but perhaps the record is other than before. */
    ghost predicate Untouched(record: Option<Artifact>, chain: seq<Tx>, file: Option<Artifact>, executes: nat, resumes: nat)
      reads this, executor
    {
      settlement == record && executor.chain == chain && executor.file == file && this.executes == executes && this.resumes == resumes
    }

    /** `executeSettlement` */
    method ExecuteSettlement(c: Config, allocations: Option<seq<Allocation>>, privacyFails: bool) returns (threw: bool)
      requires Valid() && (allocations.Some? ==> DistinctProviders(allocations.value))
      modifies this`settlement, this`executes, this`resumes, executor`chain, executor`file, executor`written
      ensures Valid()
      ensures var should := old(ShouldRun(root, final, settlement));
              var entry := old(Entry(outputDir, executor.file, settlement));
              && executes == old(executes) + (if ReachesExecute(should, privacyFails, old(settlement), entry) then 1 else 0)
              && resumes == old(resumes) + (if ReachesResume(should, privacyFails, old(settlement), entry) then 1 else 0)
      ensures var due := old(root && final && (settlement.None? || (settlement.value.status.Partial? && settlement.value.onchain)));
              var found := outputDir && old(executor.file).Some?;
              && (!due ==> Untouched(old(settlement), old(executor.chain), old(executor.file), old(executes), old(resumes)))
              && (due && old(settlement).None? && privacyFails ==>
                    && settlement.Some? && settlement.value.status.Synthetic? && !settlement.value.onchain
                    && Untouched(settlement, old(executor.chain), old(executor.file), old(executes), old(resumes)))
              && (due && old(settlement).None? && !privacyFails && found && !old(executor.file).value.status.Partial? ==>
                    Untouched(old(executor.file), old(executor.chain), old(executor.file), old(executes), old(resumes)))
              && (due && old(settlement).None? && !privacyFails && !found ==> executes == old(executes) + 1)
              && (due && !(old(settlement).None? && privacyFails) && (old(settlement).Some? || (found && old(executor.file).value.status.Partial?)) ==>
                    resumes == old(resumes) + 1)
      ensures outputDir && old(executor.file).Some? ==> executes == old(executes) && executor.file.Some?
      ensures old(settlement).Some? && old(settlement).value.status.Terminal? ==>
                executes == old(executes) && resumes == old(resumes) && settlement == old(settlement) && executor.chain == old(executor.chain)
      ensures outputDir && allocations.Some? && old(Accounted(allocations.value, executor.chain, executor.file)) ==>
                && (!threw ==> Accounted(allocations.value, executor.chain, executor.file))
                && AtMostOnce(allocations.value, executor.chain)
    {
      hide Faithful, AtMostOnce, TxsOf, JobsOf, ByProvider, CheckpointAt, AllTerminal, ResumedTo, DistinctProviders;
      threw := false;
      if allocations.Some? && outputDir {
        OnceAnyway(allocations.value, executor.chain, executor.file);
      }
      if !ShouldRun(root, final, settlement) {
        return;
      }
      if settlement.None? && privacyFails {
        settlement := Some(Artifact(false, Synthetic, 0, [], None, [], []));
        return;
      }
      if settlement.None? {
        var recovered := Recovered(outputDir, executor.file, true);
        if recovered.Some? {
          settlement := recovered;
          if !recovered.value.status.Partial? {
            return;
          }
        }
      }
      threw := RunExecutor(c, allocations);
    }

    /** Resuming from the record, or executing without one; a run that does not finish leaves the
        last checkpoint as the record. */
    method RunExecutor(c: Config, allocations: Option<seq<Allocation>>) returns (threw: bool)
      requires Valid() && (allocations.Some? ==> DistinctProviders(allocations.value))
      requires outputDir && settlement.None? ==> executor.file.None?
      requires settlement.Some? ==> settlement.value.status.Partial?
      modifies this`settlement, this`executes, this`resumes, executor`chain, executor`file, executor`written
      ensures Valid()
      ensures var resumed := old(settlement.Some? && settlement.value.onchain);
              && executes == old(executes) + (if resumed then 0 else 1) && resumes == old(resumes) + (if resumed then 1 else 0)
      ensures old(executor.file).Some? ==> executor.file.Some?
      ensures outputDir && allocations.Some? && old(Accounted(allocations.value, executor.chain, executor.file))
              && (old(settlement).Some? ==> old(settlement).value.onchain) ==>
                && (!threw ==> Accounted(allocations.value, executor.chain, executor.file))
                && AtMostOnce(allocations.value, executor.chain)
    {
      hide Faithful, AtMostOnce, TxsOf, JobsOf, ByProvider, CheckpointAt, AllTerminal, ResumedTo, DistinctProviders;
      if allocations.Some? && outputDir {
        OnceAnyway(allocations.value, executor.chain, executor.file);
      }
      var outcome;
      if settlement.Some? && settlement.value.onchain {
        StoredItself(settlement, settlement.value);
        ghost var start, chain0, file0 := settlement.value, executor.chain, executor.file;
        outcome := executor.Resume(c, allocations, settlement.value);
        if !outcome.Undefined? {
          ResumedIs(c, allocations.value, start.(jobs := StoredJobsOf(file0, start)), outcome, chain0, executor.chain, file0, executor.file);
        }
        resumes := resumes + 1;
      } else {
        outcome := executor.Execute(c, allocations);
        executes := executes + 1;
      }
      match outcome {
        case Done(record) =>
          settlement := Some(record);
          if allocations.Some? && Faithful(allocations.value, executor.chain, record) {
            FaithfulOnce(allocations.value, executor.chain, record);
          }
        case _ =>
          var recovered := Recovered(outputDir, executor.file, false);
          if recovered.Some? {
            settlement := recovered;
          }
      }
      threw := outcome.Thrown?;
    }

    /** Any number of calls, each perhaps after a restart that lost the record, and whichever of
        them throw: once an artifact exists nothing is executed again. Nothing is sent twice as long
        as no call but the last throws. */
    method Run(calls: seq<Call>, allocations: seq<Allocation>) returns (threw: seq<bool>)
      requires Valid() && outputDir && DistinctProviders(allocations)
      requires Accounted(allocations, executor.chain, executor.file)
      modifies this`settlement, this`executes, this`resumes, executor`chain, executor`file, executor`written
      ensures Valid() && |threw| == |calls|
      ensures old(executor.file).Some? ==> executes == old(executes) && executor.file.Some?
      ensures (forall k :: 0 <= k < |threw| - 1 ==> !threw[k]) ==> AtMostOnce(allocations, executor.chain)
      ensures (forall k :: 0 <= k < |threw| ==> !threw[k]) ==> Accounted(allocations, executor.chain, executor.file)
    {
      hide Faithful, AtMostOnce, DistinctProviders, Accounted;
      OnceAnyway(allocations, executor.chain, executor.file);
      threw := [];
      for k := 0 to |calls|
        invariant Valid() && |threw| == k
        invariant old(executor.file).Some? ==> executor.file.Some? && executes == old(executes)
        invariant (forall j :: 0 <= j < k - 1 ==> !threw[j]) ==> AtMostOnce(allocations, executor.chain)
        invariant (forall j :: 0 <= j < k ==> !threw[j]) ==> Accounted(allocations, executor.chain, executor.file)
      {
        if calls[k].restartBefore {
          Restart();
        }
        var cut := ExecuteSettlement(calls[k].config, Some(allocations), calls[k].privacyFails);
        ghost var before := threw;
        threw := threw + [cut];
        assert forall j :: 0 <= j < k ==> threw[j] == before[j];
        assert threw[k] == cut;
      }
    }
  }

  /** The artifact tells all that was sent; without one, nothing was. */
  ghost predicate Accounted(allocations: seq<Allocation>, chain: seq<Tx>, file: Option<Artifact>) {
    if file.Some? then Faithful(allocations, chain, file.value) else chain == []
  }

  lemma OnceAnyway(allocations: seq<Allocation>, chain: seq<Tx>, file: Option<Artifact>)
    ensures Accounted(allocations, chain, file) ==> AtMostOnce(allocations, chain)
  {
    if file.None? && chain == [] {
      NothingSent(allocations, chain);
    } else if file.Some? && Faithful(allocations, chain, file.value) {
      FaithfulOnce(allocations, chain, file.value);
    }
  }

  /** Execution is reached exactly when the raid has no record and no artifact is found: never
      again after a checkpoint in a configured directory, but again after a run that was cut
      between the creation of the raid and its first checkpoint. */
  lemma ExecuteAgainIff(root: bool, final: bool, outputDir: bool, file: Option<Artifact>, settlement: Option<Artifact>)
    requires root && final && (file.Some? ==> file.value.onchain)
    ensures ReachesExecute(ShouldRun(root, final, settlement), false, settlement, Entry(outputDir, file, settlement))
            <==> settlement.None? && (!outputDir || file.None?)
  {
  }
}
