/** Staged deletion of a group's vault, tied to the group's membership in the config
    (native-host/src/vault/store.rs, native-host/src/dispatcher.rs). */
module Staging {
  import opened Base

  type Bytes = seq<nat>

  datatype Policy = Protect | Monitor

  type Config = map<Uuid, Policy>

  /** The vault files, the files renamed for deletion and the config file. */
  datatype Disk = Disk(vaults: map<Uuid, Bytes>, staged: map<Uuid, Bytes>, config: Config)

  predicate Protects(c: Config, g: Uuid) { g in c && c[g].Protect? }

  function VaultOf(d: Disk, g: Uuid): Option<Bytes> { if g in d.vaults then Some(d.vaults[g]) else None }

  // ---------------------------------------------------------------------------------------------
  // File operations
  // ---------------------------------------------------------------------------------------------

  function Stage(d: Disk, g: Uuid): Result<Disk> {
    if g !in d.vaults then Ok(d)
    else if g in d.staged then Err(Format)
    else Ok(d.(vaults := d.vaults - {g}, staged := d.staged[g := d.vaults[g]]))
  }

  function Rollback(d: Disk, g: Uuid): Result<Disk> {
    if g !in d.staged then Ok(d)
    else if g in d.vaults then Err(Format)
    else Ok(d.(vaults := d.vaults[g := d.staged[g]], staged := d.staged - {g}))
  }

  function CommitDelete(d: Disk, g: Uuid): Disk { d.(staged := d.staged - {g}) }

  /** Recovery of one staged file. */
  function RecoverOne(d: Disk, g: Uuid): Disk
    requires g in d.staged
  {
    var gone := d.(staged := d.staged - {g});
    if Protects(d.config, g) && g !in d.vaults then gone.(vaults := d.vaults[g := d.staged[g]]) else gone
  }

  /** Recovery of all staged files at once. */
  function Recovered(d: Disk): Disk {
    Disk(map h | h in d.vaults.Keys + d.staged.Keys && (h in d.vaults || Protects(d.config, h)) ::
           if h in d.vaults then d.vaults[h] else d.staged[h],
         map[], d.config)
  }

  /** Handling one staged file first changes nothing about the outcome, so neither the order of the
      directory listing nor a crash inside recovery matters. */
  lemma RecoverOneFirst(d: Disk, g: Uuid)
    requires g in d.staged
    ensures Recovered(RecoverOne(d, g)) == Recovered(d)
  {
  }

  lemma NothingStaged(d: Disk)
    requires forall g :: g !in d.staged
    ensures Recovered(d) == d
  {
    assert d.staged == map[];
    assert Recovered(d).vaults == d.vaults;
  }

  class VaultStore {
    var disk: Disk

    constructor (d: Disk)
      ensures disk == d
    {
      disk := d;
    }

    method StageDelete(g: Uuid) returns (r: Result<()>)
      modifies this
      ensures r.Ok? <==> Stage(old(disk), g).Ok?
      ensures r.Err? <==> g in old(disk).vaults && g in old(disk).staged
      ensures r.Ok? ==>
                && VaultOf(disk, g) == None && disk.config == old(disk).config
                && disk.staged == (if g in old(disk).vaults then old(disk).staged[g := old(disk).vaults[g]]
                                   else old(disk).staged)
                && forall h :: h != g ==> VaultOf(disk, h) == VaultOf(old(disk), h)
      ensures disk == if r.Ok? then Stage(old(disk), g).value else old(disk)
    {
      if g !in disk.vaults { return Ok(()); }
      if g in disk.staged { return Err(Format); }
      disk := disk.(staged := disk.staged[g := disk.vaults[g]], vaults := disk.vaults - {g});
      return Ok(());
    }

    method RollbackStagedDelete(g: Uuid) returns (r: Result<()>)
      modifies this
      ensures r.Ok? <==> Rollback(old(disk), g).Ok?
      ensures r.Err? <==> g in old(disk).vaults && g in old(disk).staged
      ensures r.Ok? ==>
                && VaultOf(disk, g) == (if g in old(disk).staged then Some(old(disk).staged[g])
                                        else VaultOf(old(disk), g))
                && disk.staged == old(disk).staged - {g} && disk.config == old(disk).config
                && forall h :: h != g ==> VaultOf(disk, h) == VaultOf(old(disk), h)
      ensures disk == if r.Ok? then Rollback(old(disk), g).value else old(disk)
    {
      if g !in disk.staged { return Ok(()); }
      if g in disk.vaults { return Err(Format); }
      disk := disk.(vaults := disk.vaults[g := disk.staged[g]], staged := disk.staged - {g});
      return Ok(());
    }

    method CommitStagedDelete(g: Uuid)
      modifies this
      ensures disk == CommitDelete(old(disk), g)
      ensures disk.staged == old(disk).staged - {g} && disk.vaults == old(disk).vaults
              && disk.config == old(disk).config
    {
      disk := disk.(staged := disk.staged - {g});
    }

    method CommitConfig(c: Config, outcome: WriteOutcome) returns (ok: bool)
      modifies this
      ensures ok <==> outcome.Replaced?
      ensures disk == if outcome.FailsBefore? then old(disk) else old(disk).(config := c)
    {
      if outcome.FailsBefore? { return false; }
      disk := disk.(config := c);
      return outcome.Replaced?;
    }

    method RecoverEntry(g: Uuid)
      requires g in disk.staged
      modifies this
      ensures disk == RecoverOne(old(disk), g)
    {
      if Protects(disk.config, g) && g !in disk.vaults {
        disk := disk.(vaults := disk.vaults[g := disk.staged[g]], staged := disk.staged - {g});
      } else {
        disk := disk.(staged := disk.staged - {g});
      }
    }

    /** `listing` is the directory in whatever order the file system returns it. */
    method RecoverStagedDeletions(listing: seq<Uuid>)
      requires forall i, j :: 0 <= i < j < |listing| ==> listing[i] != listing[j]
      requires forall g :: g in disk.staged <==> g in listing
      modifies this
      ensures disk == Recovered(old(disk))
      ensures disk.staged == map[] && disk.config == old(disk).config
      ensures forall g :: VaultOf(disk, g) ==
                if g in old(disk).vaults then Some(old(disk).vaults[g])
                else if g in old(disk).staged && g in old(disk).config && old(disk).config[g].Protect?
                then Some(old(disk).staged[g])
                else None
    {
      for i := 0 to |listing|
        invariant forall g :: g in disk.staged <==> g in listing[i..]
        invariant Recovered(disk) == Recovered(old(disk))
      {
        assert listing[i..] == [listing[i]] + listing[i + 1..];
        RecoverOneFirst(disk, listing[i]);
        RecoverEntry(listing[i]);
      }
      NothingStaged(disk);
    }

    /** Removing a group; on a failed config write the vault is put back. */
    method GroupRemove(g: Uuid, memory: Config, outcome: WriteOutcome) returns (r: Result<Config>)
      requires disk.staged == map[]
      modifies this
      ensures r.Ok? <==> g in memory && outcome.Replaced?
      ensures r.Ok? ==> r.value == memory - {g}
      ensures disk == AfterRemove(old(disk), memory, g, outcome)
      ensures disk.staged == map[]
      ensures disk.config == if g in memory && !outcome.FailsBefore? then memory - {g} else old(disk).config
      ensures disk.vaults == if r.Ok? then old(disk).vaults - {g} else old(disk).vaults
      ensures Owned(old(disk)) && memory == old(disk).config ==>
                (Owned(Recovered(disk)) <==> !(g in old(disk).vaults && outcome.FailsAfter?))
    {
      if Owned(disk) && memory == disk.config { RemoveOrphansIff(disk, g, outcome); }
      if g !in memory { return Err(Protocol); }
      var staged := StageDelete(g);
      var committed := CommitConfig(memory - {g}, outcome);
      if !committed {
        var restored := RollbackStagedDelete(g);
        RollbackRestores(old(disk), g);
        return Err(Io);
      }
      CommitStagedDelete(g);
      return Ok(memory - {g});
    }

    /** Changing a group's policy; `busy` is whether an operation is pending or unresolved and `sealed`
        whether the lease is sealed. */
    method GroupSetPolicy(g: Uuid, memory: Config, policy: Policy, busy: bool, sealed: bool, outcome: WriteOutcome)
      returns (r: Result<Config>)
      requires disk.staged == map[]
      modifies this
      ensures r.Ok? <==>
                && g in memory && !busy && !(policy.Monitor? && memory[g].Protect? && sealed) && outcome.Replaced?
      ensures disk.staged == map[]
      ensures disk.config == if && g in memory && !busy && !(policy.Monitor? && memory[g].Protect? && sealed)
                                && !outcome.FailsBefore? then memory[g := policy] else old(disk).config
      ensures disk.vaults == if r.Ok? && policy.Monitor? && memory[g].Protect? then old(disk).vaults - {g}
                             else old(disk).vaults
      ensures r.Ok? ==> r.value == memory[g := policy]
      ensures disk == AfterSetPolicy(old(disk), memory, g, policy, busy, sealed, outcome)
      ensures Owned(old(disk)) && memory == old(disk).config ==>
                (Owned(Recovered(disk)) <==>
                   !(g in old(disk).vaults && policy.Monitor? && !busy && !sealed && outcome.FailsAfter?))
    {
      if Owned(disk) && memory == disk.config { PolicyOrphansIff(disk, g, policy, busy, sealed, outcome); }
      if g !in memory || busy { return Err(Protocol); }
      var entering := policy.Monitor? && memory[g].Protect?;
      if entering && sealed { return Err(Protocol); }
      if entering {
        var staged := StageDelete(g);
      }
      var committed := CommitConfig(memory[g := policy], outcome);
      if !committed {
        if entering {
          var restored := RollbackStagedDelete(g);
          RollbackRestores(old(disk), g);
        }
        return Err(Io);
      }
      if entering { CommitStagedDelete(g); }
      return Ok(memory[g := policy]);
    }
  }

  // ---------------------------------------------------------------------------------------------
  // The two operations as a whole
  // ---------------------------------------------------------------------------------------------

  /** Every vault belongs to a protected group. */
  predicate Owned(d: Disk) { forall g :: g in d.vaults ==> Protects(d.config, g) }

  /** The disk after a deletion that ran to its end. */
  function Deleted(d: Disk, g: Uuid, c: Config): Disk { d.(vaults := d.vaults - {g}, config := c) }

  function AfterRemove(d: Disk, memory: Config, g: Uuid, outcome: WriteOutcome): Disk {
    if g !in memory || outcome.FailsBefore? then d
    else if outcome.Replaced? then Deleted(d, g, memory - {g})
    else d.(config := memory - {g})
  }

  predicate Entering(memory: Config, g: Uuid, policy: Policy) { g in memory && policy.Monitor? && memory[g].Protect? }

  predicate PolicyRefused(memory: Config, g: Uuid, policy: Policy, busy: bool, sealed: bool) {
    g !in memory || busy || (Entering(memory, g, policy) && sealed)
  }

  function AfterSetPolicy(d: Disk, memory: Config, g: Uuid, policy: Policy, busy: bool, sealed: bool,
                          outcome: WriteOutcome): Disk {
    if PolicyRefused(memory, g, policy, busy, sealed) || outcome.FailsBefore? then d
    else if outcome.Replaced? && Entering(memory, g, policy) then Deleted(d, g, memory[g := policy])
    else d.(config := memory[g := policy])
  }

  /** After a removal and the next startup every vault has its group, if and only if it is not the case
      that the group had a vault and the config write failed after replacing the file: the rollback then
      puts back a vault that nothing protects. */
  lemma RemoveOrphansIff(d: Disk, g: Uuid, outcome: WriteOutcome)
    requires Owned(d) && d.staged == map[]
    ensures Owned(Recovered(AfterRemove(d, d.config, g, outcome))) <==> !(g in d.vaults && outcome.FailsAfter?)
  {
    var n := AfterRemove(d, d.config, g, outcome);
    NothingStaged(n);
  }

  /** The same for a change of policy: the only failing family is a switch to Monitor of a group with a
      vault, neither busy nor sealed, whose config write fails after replacing the file. */
  lemma PolicyOrphansIff(d: Disk, g: Uuid, policy: Policy, busy: bool, sealed: bool, outcome: WriteOutcome)
    requires Owned(d) && d.staged == map[]
    ensures Owned(Recovered(AfterSetPolicy(d, d.config, g, policy, busy, sealed, outcome))) <==>
              !(g in d.vaults && policy.Monitor? && !busy && !sealed && outcome.FailsAfter?)
  {
    var n := AfterSetPolicy(d, d.config, g, policy, busy, sealed, outcome);
    NothingStaged(n);
  }

  lemma RollbackRestores(d: Disk, g: Uuid)
    requires d.staged == map[]
    ensures Stage(d, g).Ok? && Rollback(Stage(d, g).value, g) == Ok(d)
  {
    if g in d.vaults {
      assert Rollback(Stage(d, g).value, g).value.vaults == d.vaults;
    }
  }

  // ---------------------------------------------------------------------------------------------
  // Crashes
  // ---------------------------------------------------------------------------------------------

  /** The four states of a deletion that commits config c: untouched, staged, config written, done. */
  function DeletionStates(d: Disk, g: Uuid, c: Config): seq<Disk>
    requires Stage(d, g).Ok?
  {
    var staged := Stage(d, g).value;
    [d, staged, staged.(config := c), CommitDelete(staged.(config := c), g)]
  }

  /** Recovery attempts that crash: each handles some of the staged files. */
  function Interrupted(d: Disk, handled: seq<Uuid>): Disk
    decreases |handled|
  {
    if handled == [] then d
    else Interrupted(if handled[0] in d.staged then RecoverOne(d, handled[0]) else d, handled[1..])
  }

  lemma {:induction false} InterruptionInvisible(d: Disk, handled: seq<Uuid>)
    ensures Recovered(Interrupted(d, handled)) == Recovered(d)
    decreases |handled|
  {
    if handled != [] {
      if handled[0] in d.staged { RecoverOneFirst(d, handled[0]); }
      InterruptionInvisible(if handled[0] in d.staged then RecoverOne(d, handled[0]) else d, handled[1..]);
    }
  }

  /** A crash at any point of a deletion, followed by any number of interrupted startups and a complete
      one: the group's vault has its original bytes if the config on disk still protects the group and
      is gone otherwise, nothing stays staged, and every other vault is unchanged. */
  lemma DeletionCrash(d: Disk, g: Uuid, c: Config, i: nat, handled: seq<Uuid>)
    requires Owned(d) && d.staged == map[] && i < 4
    requires !Protects(c, g) && forall h :: h != g ==> (Protects(c, h) <==> Protects(d.config, h))
    ensures var n := Recovered(Interrupted(DeletionStates(d, g, c)[i], handled));
            && VaultOf(n, g) == (if Protects(n.config, g) then VaultOf(d, g) else None)
            && n.staged == map[]
            && (forall h :: h != g ==> VaultOf(n, h) == VaultOf(d, h))
            && n.config == (if i < 2 then d.config else c)
            && Owned(n)
  {
    InterruptionInvisible(DeletionStates(d, g, c)[i], handled);
  }

  // ---------------------------------------------------------------------------------------------
  // Runs
  // ---------------------------------------------------------------------------------------------

  /** The disk and the config the running host works with. */
  datatype Host = Host(disk: Disk, memory: Config)

  datatype Event =
    | Remove(g: Uuid, outcome: WriteOutcome)
    | SetPolicy(g: Uuid, policy: Policy, busy: bool, sealed: bool, outcome: WriteOutcome)
    | Add(g: Uuid, policy: Policy, outcome: WriteOutcome)
    | DeleteCrash(g: Uuid, monitor: bool, at: nat, handled: seq<Uuid>)
    | Restart(handled: seq<Uuid>)
    | WriteVault(g: Uuid, bytes: Bytes)
    | Invalidate(g: Uuid)

  function Without(c: Config, g: Uuid, monitor: bool): Config { if monitor then c[g := Monitor] else c - {g} }

  function Started(d: Disk, handled: seq<Uuid>): Host {
    var n := Recovered(Interrupted(d, handled));
    Host(n, n.config)
  }

  /** One event. A failed write leaves the host running with its old config; a crash is followed by any
      number of interrupted startups and a complete one. */
  function Next(h: Host, e: Event): Host {
    match e
    case Remove(g, outcome) =>
      Host(AfterRemove(h.disk, h.memory, g, outcome), if outcome.Replaced? then h.memory - {g} else h.memory)
    case SetPolicy(g, policy, busy, sealed, outcome) =>
      Host(AfterSetPolicy(h.disk, h.memory, g, policy, busy, sealed, outcome),
           if !PolicyRefused(h.memory, g, policy, busy, sealed) && outcome.Replaced? then h.memory[g := policy]
           else h.memory)
    case Add(g, policy, outcome) =>
      if g in h.memory || outcome.FailsBefore? then h
      else Host(h.disk.(config := h.memory[g := policy]), if outcome.Replaced? then h.memory[g := policy] else h.memory)
    case DeleteCrash(g, monitor, at, handled) =>
      if !Protects(h.memory, g) || at >= 4 || Stage(h.disk, g).Err? then h
      else Started(DeletionStates(h.disk, g, Without(h.memory, g, monitor))[at], handled)
    case Restart(handled) => Started(h.disk, handled)
    case WriteVault(g, bytes) =>
      if Protects(h.memory, g) then h.(disk := h.disk.(vaults := h.disk.vaults[g := bytes])) else h
    case Invalidate(g) => h.(disk := h.disk.(vaults := h.disk.vaults - {g}))
  }

  function Run(events: seq<Event>): Host {
    if events == [] then Host(Disk(map[], map[], map[]), map[])
    else Next(Run(events[..|events| - 1]), events[|events| - 1])
  }

  predicate FailsLate(e: Event) {
    match e
    case Remove(_, outcome) => outcome.FailsAfter?
    case SetPolicy(_, _, _, _, outcome) => outcome.FailsAfter?
    case Add(_, _, outcome) => outcome.FailsAfter?
    case _ => false
  }

  /** Every vault has its group, nothing is staged, and memory is the config on disk. */
  predicate Clean(h: Host) { Owned(h.disk) && h.disk.staged == map[] && h.memory == h.disk.config }

  lemma CrashClean(h: Host, g: Uuid, monitor: bool, at: nat, handled: seq<Uuid>)
    requires Clean(h)
    ensures Clean(Next(h, DeleteCrash(g, monitor, at, handled)))
  {
    if Protects(h.memory, g) && at < 4 {
      DeletionCrash(h.disk, g, Without(h.memory, g, monitor), at, handled);
    }
  }

  lemma RestartClean(h: Host, handled: seq<Uuid>)
    requires Clean(h)
    ensures Next(h, Restart(handled)) == h
  {
    InterruptionInvisible(h.disk, handled);
    NothingStaged(h.disk);
  }

  lemma NextClean(h: Host, e: Event)
    requires Clean(h) && !FailsLate(e)
    ensures Clean(Next(h, e))
  {
    match e
    case DeleteCrash(g, monitor, at, handled) => CrashClean(h, g, monitor, at, handled);
    case Restart(handled) => RestartClean(h, handled);
    case _ =>
  }

  /** At rest, in every run without a config write that fails after replacing the file, nothing is staged
      and every vault belongs to a group that config and memory protect. */
  lemma {:induction false} RunClean(events: seq<Event>)
    requires forall i :: 0 <= i < |events| ==> !FailsLate(events[i])
    ensures Clean(Run(events))
  {
    if events != [] {
      RunClean(events[..|events| - 1]);
      NextClean(Run(events[..|events| - 1]), events[|events| - 1]);
    }
  }

  /** A late failure is harmful without a vault too: the host goes on protecting a group that the config
      on disk has forgotten, and a vault written for it has no owner after the next startup. */
  lemma LateFailureForgetsGroup(h: Host, g: Uuid, bytes: Bytes, handled: seq<Uuid>)
    requires Clean(h) && Protects(h.memory, g)
    ensures var n := Next(Next(Next(h, Remove(g, FailsAfter)), WriteVault(g, bytes)), Restart(handled));
            VaultOf(n.disk, g) == Some(bytes) && !Protects(n.disk.config, g) && !Owned(n.disk)
  {
    var m := Next(Next(h, Remove(g, FailsAfter)), WriteVault(g, bytes));
    InterruptionInvisible(m.disk, handled);
    NothingStaged(m.disk);
  }
}
