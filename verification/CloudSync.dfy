/**
  Cloud sync: which sessions the server has, and when the device may believe that it has them all.

  A run takes a snapshot of the storage version, asks the server what it lacks, and sends that.
  Sessions may be flushed to flash, and old ones purged, between any two steps.
*/
module CloudSync {
  const MAX_ENTRIES := 250
  const MAX_UPLOADS := 100

  /** A session file; its header is readable and names a size, or not. */
  datatype Session = Session(id: nat, headerOk: bool, size: nat, content: nat)

  predicate WellFormed(f: Session) {
    f.headerOk && f.size > 0
  }

  datatype Phase = Manifest | Upload | BrewUpload | ConfigFetch | Snapshot

  datatype Result = NoRun | Success | Partial | Failed | Aborted

  datatype StepResult = Running | Done | StepFailed

  /** What one step meets outside. */
  datatype Weather = Weather(
    memory: bool,       // allocations succeed
    status: int,        // the HTTP status, or less than zero
    want: seq<nat>,     // the ids the server names in its answer to the manifest
    received: nat,      // how many of them arrive
    stored: bool,       // the server keeps the upload although it does not say so
    readOk: bool,       // the file can be read
    brews: bool)        // there is another brew record

  predicate DistinctIds(files: seq<Session>) {
    forall i, j :: 0 <= i < j < |files| ==> files[i].id != files[j].id
  }

  /** The manifest: the well-formed files in the order of the directory, but not more than 250. */
  function Listed(files: seq<Session>, room: nat): (r: seq<Session>)
    ensures |r| <= room
    decreases |files|
  {
    if files == [] || room == 0 then []
    else if WellFormed(files[0]) then [files[0]] + Listed(files[1..], room - 1)
    else Listed(files[1..], room)
  }

  lemma ListedNext(files: seq<Session>, i: nat, entries: seq<Session>)
    requires i < |files| && |entries| < MAX_ENTRIES
    ensures entries + Listed(files[i..], MAX_ENTRIES - |entries|) ==
      if WellFormed(files[i]) then entries + [files[i]] + Listed(files[i + 1..], MAX_ENTRIES - |entries| - 1)
      else entries + Listed(files[i + 1..], MAX_ENTRIES - |entries|)
  {
    var room, rest := MAX_ENTRIES - |entries|, files[i..];
    assert rest[0] == files[i] && rest[1..] == files[i + 1..];
    ListedFirst(rest, room);
    hide Listed, WellFormed;
    if WellFormed(files[i]) {
      Moved(entries, files[i], Listed(files[i + 1..], room - 1));
    }
  }

  lemma Moved(a: seq<Session>, x: Session, b: seq<Session>)
    ensures a + ([x] + b) == a + [x] + b
  {
  }

  lemma ListedFirst(files: seq<Session>, room: nat)
    requires files != [] && room > 0
    ensures Listed(files, room) ==
      if WellFormed(files[0]) then [files[0]] + Listed(files[1..], room - 1) else Listed(files[1..], room)
  {
  }

  function Count(files: seq<Session>): nat {
    if files == [] then 0 else (if WellFormed(files[0]) then 1 else 0) + Count(files[1..])
  }

  /** Nothing is left out as long as the flash holds no more sessions than a manifest has entries. */
  lemma {:induction false} ListedAll(files: seq<Session>, room: nat, f: Session)
    requires Count(files) <= room && f in files && WellFormed(f)
    ensures f in Listed(files, room)
    decreases |files|
  {
    if files[0] != f {
      ListedAll(files[1..], if WellFormed(files[0]) then room - 1 else room, f);
    } else {
      assert f in [files[0]];
    }
  }

  lemma {:induction false} ListedOnly(files: seq<Session>, room: nat, f: Session)
    requires f in Listed(files, room)
    ensures f in files && WellFormed(f)
    decreases |files|
  {
    var rest := Listed(files[1..], if WellFormed(files[0]) then room - 1 else room);
    if WellFormed(files[0]) {
      assert f == files[0] || f in rest;
      if f in rest {
        ListedOnly(files[1..], room - 1, f);
      }
    } else {
      ListedOnly(files[1..], room, f);
    }
  }

  /** The ids that are read from the answer. */
  function Parsed(want: seq<nat>, received: nat): (r: seq<nat>)
    ensures |r| <= MAX_ENTRIES
  {
    var arrived := if received < |want| then want[..received] else want;
    if |arrived| <= MAX_ENTRIES then arrived else arrived[..MAX_ENTRIES]
  }

  /** What the server holds after an upload. */
  function Kept(held: set<Session>, f: Session, w: Weather): set<Session> {
    if w.status == 200 || w.status == 201 || (w.stored && w.status != 422) then held + {f} else held
  }

  function Refused(rejected: set<Session>, f: Session, w: Weather): set<Session> {
    if w.status == 422 then rejected + {f} else rejected
  }

  class CloudSync {
    // the flash
    var files: seq<Session>
    var version: nat              // session_storage_version
    ghost var landing: set<nat>   // flushed, but the version has not been moved on yet

    // the server
    ghost var held: set<Session>
    ghost var rejected: set<Session>

    // the uploader
    var syncing: bool
    var phase: Phase
    var wantIds: seq<nat>
    var wantIndex: nat
    var runUploaded: nat
    var lastWanted: nat
    var runVersion: nat
    var lastSynced: nat
    var lastUploaded: nat
    var lastResult: Result
    var configRefreshed: bool

    ghost var known: set<Session> // what was settled when the manifest was answered
    ghost var faithful: bool      // of this run: the device got the whole truth about what is lacking
    ghost var trusted: bool       // of the last successful run

    /** `init`: what is on flash at that moment is not asked about. */
    constructor (onFlash: seq<Session>, at: nat, ghost stored: set<Session>)
      requires DistinctIds(onFlash)
      ensures Valid() && files == onFlash && version == lastSynced == at && held == stored && !syncing
      ensures rejected == {} && landing == {} && !trusted
    {
      files, version, landing := onFlash, at, {};
      held, rejected := stored, {};
      syncing, phase := false, Manifest;
      wantIds, wantIndex, runUploaded, lastWanted, lastUploaded := [], 0, 0, 0, 0;
      runVersion, lastSynced, lastResult, configRefreshed := at, at, NoRun, false;
      faithful, trusted, known := false, false, {};
    }

    /** The server has it, or will never take it. */
    ghost predicate Settled(f: Session)
      reads this`held, this`rejected
    {
      f in held || f in rejected
    }

    /** A session that has been flushed completely. */
    ghost predicate OnFlash(f: Session)
      reads this`files, this`landing
    {
      f in files && WellFormed(f) && f.id !in landing
    }

    /** `has_unsynced_sessions` */
    predicate HasUnsynced()
      reads this`version, this`lastSynced
    {
      version != lastSynced
    }

    ghost predicate AllSettled()
      reads this`files, this`landing, this`held, this`rejected
    {
      forall f :: OnFlash(f) ==> Settled(f)
    }

    /** Everything that the run is to deliver has been asked for. */
    ghost predicate Asked()
      reads this`files, this`landing, this`known, this`wantIds
    {
      forall f :: OnFlash(f) ==> f in known || f.id in wantIds
    }

    /** What an upload run has done so far. */
    ghost predicate RunOk()
      reads this
    {
      && runVersion <= version
      && (phase == Manifest ==> wantIndex == runUploaded == 0)
      && (phase != Manifest ==>
        && runUploaded <= wantIndex <= |wantIds| == lastWanted
        && runUploaded <= MAX_UPLOADS
        && (forall f :: f in known ==> Settled(f))
        && (forall f :: Settled(f) ==> f in known || f.id in wantIds[..wantIndex])
        && (version == runVersion && faithful ==> Asked())
        && (version == runVersion && runUploaded == wantIndex ==>
            forall f :: OnFlash(f) && f.id in wantIds[..wantIndex] ==> Settled(f)))
    }

    ghost predicate Valid()
      reads this
    {
      && DistinctIds(files)
      && lastSynced <= version
      && (syncing ==> RunOk())
      && (trusted && !HasUnsynced() ==> AllSettled())
    }

    // ---------------------------------------------------------------- the logger

    /** The first half of `flush_session_to_flash`: the file is written. */
    method WriteSession(f: Session)
      requires Valid() && forall g :: g in files ==> g.id != f.id
      modifies this`files, this`landing
      ensures Valid() && files == old(files) + [f] && landing == old(landing) + {f.id}
    {
      files := files + [f];
      landing := landing + {f.id};
    }

    /** `mark_session_storage_dirty`, which ends a flush and a purge. */
    method MarkDirty()
      requires Valid()
      modifies this`version, this`landing
      ensures Valid() && version == old(version) + 1 && landing == {} && HasUnsynced()
    {
      version := version + 1;
      landing := {};
    }

    /** A file is removed to make room. */
    method Purge(i: nat)
      requires Valid() && i < |files|
      modifies this`files
      ensures Valid() && files == old(files[..i] + files[i + 1..])
    {
      ghost var before := files;
      files := files[..i] + files[i + 1..];
      assert forall f :: f in files ==> f in before;
    }

    // ---------------------------------------------------------------- a run

    /** `begin_run` */
    method BeginRun()
      requires Valid() && !syncing
      modifies this`phase, this`wantIds, this`wantIndex, this`runUploaded, this`configRefreshed, this`runVersion,
               this`syncing, this`faithful
      ensures Valid() && syncing && phase == Manifest && runVersion == version && !configRefreshed
      ensures wantIndex == runUploaded == 0
    {
      phase := Manifest;
      wantIds := [];
      wantIndex := 0;
      runUploaded := 0;
      configRefreshed := false;
      runVersion := version;
      syncing := true;
      faithful := false;
    }

    /** `end_run` */
    method EndRun(result: Result)
      requires Valid() && syncing
      requires result == Success ==> phase != Manifest && runUploaded >= lastWanted
      modifies this`wantIds, this`lastResult, this`lastUploaded, this`lastSynced, this`syncing, this`trusted
      ensures Valid() && !syncing && lastResult == result && lastUploaded == runUploaded
      ensures lastSynced == if result == Success then runVersion else old(lastSynced)
      ensures trusted == if result == Success then faithful else old(trusted)
      // a flush that lands during the run keeps the flag up
      ensures version > runVersion && result == Success ==> HasUnsynced()
      // otherwise the server has everything, exactly if everything it lacked was asked for
      ensures version == runVersion && result == Success ==> (AllSettled() <==> old(Asked()))
    {
      if result == Success {
        assert wantIds[..wantIndex] == wantIds;
        assert version == runVersion ==> (AllSettled() <==> Asked());
        lastSynced := runVersion;
        trusted := faithful;
      }
      wantIds := [];
      lastResult := result;
      lastUploaded := runUploaded;
      syncing := false;
    }

    /** `abort_run` */
    method AbortRun()
      requires Valid()
      modifies this`wantIds, this`lastResult, this`lastUploaded, this`lastSynced, this`syncing, this`trusted
      ensures Valid() && !syncing && lastSynced == old(lastSynced)
      ensures old(syncing) ==> lastResult == Aborted
    {
      if syncing {
        EndRun(Aborted);
      }
    }

    /** A file with this id is on flash. */
    ghost predicate Stored(id: nat)
      reads this`files
    {
      exists f :: f in files && f.id == id
    }

    /** The server names all it lacks, all of it arrives, and all of it had been offered. */
    ghost predicate WholeTruth(w: Weather)
      reads this`files, this`held, this`rejected
    {
      && Count(files) <= MAX_ENTRIES
      && (forall f :: f in Listed(files, MAX_ENTRIES) ==> Settled(f) || f.id in w.want)
      && |w.want| <= w.received && |w.want| <= MAX_ENTRIES
    }

    /** The body of the manifest. */
    method ListSessions() returns (entries: seq<Session>)
      ensures entries == Listed(files, 250)
    {
      entries := [];
      assert files[0..] == files && entries + Listed(files, MAX_ENTRIES) == Listed(files, MAX_ENTRIES);
      hide WellFormed;
      var i := 0;
      while i < |files| && |entries| < MAX_ENTRIES
        invariant 0 <= i <= |files| && |entries| <= MAX_ENTRIES
        invariant entries + Listed(files[i..], MAX_ENTRIES - |entries|) == Listed(files, MAX_ENTRIES)
      {
        var file := files[i];
        ListedNext(files, i, entries);
        if WellFormed(file) {
          entries := entries + [file];
        }
        i := i + 1;
      }
    }

    /** `step_manifest` */
    method StepManifest(w: Weather) returns (r: StepResult)
      requires Valid() && syncing && phase == Manifest
      modifies this`wantIds, this`lastWanted, this`phase, this`faithful, this`known
      ensures Valid()
      ensures r == if w.memory && w.status == 200 then Running else StepFailed
      ensures r == StepFailed ==> phase == Manifest
      ensures r == Running ==>
        && wantIds == Parsed(w.want, w.received)
        && lastWanted == |wantIds|
        && phase == (if wantIds != [] then Upload else BrewUpload)
        && faithful == old(WholeTruth(w))
        && known == held + rejected
    {
      hide WholeTruth, Parsed, AllSettled, DistinctIds, Listed, Count, Settled;
      if !w.memory {
        return StepFailed;
      }
      var body := ListSessions();
      if w.status != 200 {
        return StepFailed;
      }
      known := held + rejected;
      faithful := WholeTruth(w);
      Named(w);
      wantIds := Parsed(w.want, w.received);
      lastWanted := |wantIds|;
      phase := if |wantIds| > 0 then Upload else BrewUpload;
      return Running;
    }

    /** Told the whole truth, the run knows of each file that the server has it or wants it. */
    lemma Named(w: Weather)
      ensures forall f :: Settled(f) <==> f in held + rejected
      ensures WholeTruth(w) ==> forall f :: OnFlash(f) ==> f in held + rejected || f.id in Parsed(w.want, w.received)
    {
      if WholeTruth(w) {
        forall f | OnFlash(f)
          ensures f in held + rejected || f.id in Parsed(w.want, w.received)
        {
          ListedAll(files, MAX_ENTRIES, f);
        }
      }
    }

    method Find(id: nat) returns (found: bool, at: nat)
      ensures found ==> at < |files| && files[at].id == id
      ensures !found ==> forall i :: 0 <= i < |files| ==> files[i].id != id
    {
      at := 0;
      while at < |files|
        invariant 0 <= at <= |files|
        invariant forall i :: 0 <= i < at ==> files[i].id != id
      {
        if files[at].id == id {
          return true, at;
        }
        at := at + 1;
      }
      return false, at;
    }

    /** What the server does with an upload: it keeps it, rejects it for good, or says something else. */
    ghost method Deliver(f: Session, w: Weather)
      modifies this`held, this`rejected
      ensures held == Kept(old(held), f, w) && rejected == Refused(old(rejected), f, w)
    {
      if w.status == 422 {
        rejected := rejected + {f};
      } else if w.status == 200 || w.status == 201 || w.stored {
        held := held + {f};
      }
    }

    /** The request of `step_upload`, for the file of the id that was taken last. */
    method Send(file: Session, w: Weather) returns (r: StepResult)
      requires Valid() && syncing && phase == Upload && file in files
      requires runUploaded < wantIndex && runUploaded < MAX_UPLOADS && file.id == wantIds[wantIndex - 1]
      requires version == runVersion && runUploaded == wantIndex - 1 ==>
        forall f :: OnFlash(f) && f.id in wantIds[..wantIndex - 1] ==> Settled(f)
      modifies this`runUploaded, this`held, this`rejected
      ensures Valid() && r == if w.status == 200 || w.status == 201 || w.status == 422 then Running else StepFailed
      ensures runUploaded == if r == Running then old(runUploaded) + 1 else old(runUploaded)
      ensures r == Running ==> Settled(file)
      ensures held == Kept(old(held), file, w) && rejected == Refused(old(rejected), file, w)
    {
      assert wantIds[..wantIndex] == wantIds[..wantIndex - 1] + [file.id];
      Deliver(file, w);
      if w.status == 201 || w.status == 200 {
        runUploaded := runUploaded + 1;
        return Running;
      }
      if w.status == 422 {
        runUploaded := runUploaded + 1;
        return Running;
      }
      return StepFailed;
    }

    /** What a step that takes the next wanted id has done: exactly a file that can be read is sent. */
    twostate predicate Uploaded(w: Weather, r: StepResult)
      requires old(wantIndex) < |old(wantIds)|
      reads this
    {
      var id := old(wantIds[wantIndex]);
      && wantIds == old(wantIds) && wantIndex == old(wantIndex) + 1 && phase == Upload
      && ((forall f :: f in files ==> f.id != id) ==> r == Running && NothingSent())
      && (forall f :: f in files && f.id == id ==>
        if !w.memory then r == StepFailed && NothingSent()
        else if !w.readOk then r == Running && NothingSent()
        else
          && held == Kept(old(held), f, w) && rejected == Refused(old(rejected), f, w)
          && r == (if w.status == 200 || w.status == 201 || w.status == 422 then Running else StepFailed)
          && runUploaded == old(runUploaded) + if r == Running then 1 else 0)
    }

    twostate predicate NothingSent()
      reads this
    {
      held == old(held) && rejected == old(rejected) && runUploaded == old(runUploaded)
    }

    /** `step_upload`: one wanted file a step. */
    method StepUpload(w: Weather) returns (r: StepResult)
      requires Valid() && syncing && phase == Upload
      modifies this`wantIndex, this`runUploaded, this`phase, this`held, this`rejected
      ensures Valid() && r != Done
      ensures phase == if old(wantIndex >= |wantIds| || runUploaded >= MAX_UPLOADS) then BrewUpload else Upload
      ensures phase == BrewUpload ==>
        r == Running && held == old(held) && rejected == old(rejected) && runUploaded == old(runUploaded)
      ensures old(wantIndex < |wantIds| && runUploaded < MAX_UPLOADS) ==> Uploaded(w, r)
      ensures runUploaded <= old(runUploaded) + 1
      // it counts as uploaded only what the server has answered for
      ensures runUploaded > old(runUploaded) ==>
        exists f :: f in files && f.id == wantIds[old(wantIndex)] && Settled(f)
      ensures r == StepFailed ==> w.status !in {200, 201, 422} || !w.memory
    {
      if wantIndex >= |wantIds| || runUploaded >= MAX_UPLOADS {
        phase := BrewUpload;
        return Running;
      }
      var id := NextWanted();
      var found, at := Find(id);
      hide Valid;
      if !found {
        return Running;
      }
      var file := files[at];
      if !w.memory {
        return StepFailed;
      }
      if !w.readOk {
        return Running;
      }
      r := Send(file, w);
    }

    method NextWanted() returns (id: nat)
      requires Valid() && syncing && phase == Upload && wantIndex < |wantIds|
      modifies this`wantIndex
      ensures Valid() && wantIndex == old(wantIndex) + 1 && id == wantIds[old(wantIndex)]
      ensures runUploaded < wantIndex
      ensures version == runVersion && runUploaded == wantIndex - 1 ==>
        forall f :: OnFlash(f) && f.id in wantIds[..wantIndex - 1] ==> Settled(f)
    {
      id := wantIds[wantIndex];
      wantIndex := wantIndex + 1;
      assert wantIds[..wantIndex] == wantIds[..wantIndex - 1] + [id];
    }

    /** `step_brew_upload`; whatever the server says, the run goes on. */
    method StepBrewUpload(w: Weather) returns (r: StepResult)
      requires Valid() && syncing && phase == BrewUpload
      modifies this`phase, this`configRefreshed
      ensures Valid() && r == Running
      ensures phase == if w.brews then BrewUpload else if old(configRefreshed) then Snapshot else ConfigFetch
    {
      hide Settled, AllSettled, Asked;
      if !w.brews {
        phase := if configRefreshed then Snapshot else ConfigFetch;
        return Running;
      }
      if w.status != 200 {
        return Running;
      }
      configRefreshed := true;
      return Running;
    }

    /** `step` */
    method Step(w: Weather) returns (r: StepResult)
      requires Valid()
      modifies this`wantIds, this`wantIndex, this`runUploaded, this`lastWanted, this`phase, this`configRefreshed,
               this`faithful, this`known, this`held, this`rejected,
               this`lastResult, this`lastUploaded, this`lastSynced, this`syncing, this`trusted
      ensures Valid()
      ensures !old(syncing) ==> r == StepFailed && !syncing && lastResult == old(lastResult)
      ensures old(syncing) ==> (syncing <==> r == Running)
      ensures r == Done ==> old(phase) == Snapshot
      // the run is a success exactly if it came to its end and everything wanted was answered for
      ensures old(syncing) && !syncing ==>
        lastResult == if r == Done then (if lastUploaded < lastWanted then Partial else Success)
          else (if lastUploaded > 0 then Partial else Failed)
      ensures lastSynced == if old(syncing) && !syncing && lastResult == Success then runVersion else old(lastSynced)
      // what each phase leads to
      ensures old(syncing) && syncing ==> match old(phase)
        case Manifest => phase == (if Parsed(w.want, w.received) != [] then Upload else BrewUpload)
        case Upload => phase == Upload || phase == BrewUpload
        case BrewUpload =>
          phase == if w.brews then BrewUpload else if old(configRefreshed) then Snapshot else ConfigFetch
        case _ => phase == Snapshot
      ensures old(syncing) && old(phase) == Manifest && syncing ==> lastWanted == |Parsed(w.want, w.received)|
      ensures old(phase) != Manifest ==> lastWanted == old(lastWanted)
      ensures old(phase) != Upload ==>
        held == old(held) && rejected == old(rejected) && runUploaded == old(runUploaded)
      ensures old(phase) !in {BrewUpload} ==> configRefreshed == old(configRefreshed)
      ensures old(syncing) && old(phase) == Snapshot ==> r == Done
      ensures old(syncing) && old(phase) in {BrewUpload, ConfigFetch} ==> r == Running
      ensures old(syncing) && old(phase) == Manifest ==> r == if w.memory && w.status == 200 then Running else StepFailed
      ensures old(syncing) && !syncing ==> lastUploaded == runUploaded
      ensures syncing && old(phase) == Manifest ==> wantIds == Parsed(w.want, w.received) && wantIndex == old(wantIndex)
      ensures syncing && old(phase) == Upload && old(wantIndex < |wantIds| && runUploaded < MAX_UPLOADS) ==>
        Uploaded(w, Running)
      ensures old(syncing) && old(phase) == Upload && !old(wantIndex < |wantIds| && runUploaded < MAX_UPLOADS) ==>
        r == Running && phase == BrewUpload && NothingSent()
      ensures old(syncing) && !syncing && old(phase) == Upload ==>
        w.status !in {200, 201, 422} || !w.memory
      ensures old(phase) == Manifest && syncing ==> faithful == old(WholeTruth(w))
      ensures old(phase) != Manifest ==> faithful == old(faithful)
      ensures old(syncing) && !syncing && lastResult == Success ==> trusted == faithful
    {
      hide Settled, AllSettled, Asked, RunOk, Parsed, Uploaded, WholeTruth, Valid;
      if !syncing {
        return StepFailed;
      }
      match phase {
        case Manifest =>
          r := StepManifest(w);
        case Upload =>
          r := StepUpload(w);
        case BrewUpload =>
          r := StepBrewUpload(w);
        case ConfigFetch =>
          r := StepConfigFetch();
        case Snapshot =>
          r := Done;
      }
      if r == Done {
        EndRun(if runUploaded < lastWanted then Partial else Success);
      } else if r == StepFailed {
        EndRun(if runUploaded > 0 then Partial else Failed);
      }
    }

    /** `step_config_fetch`: best effort. */
    method StepConfigFetch() returns (r: StepResult)
      requires Valid() && syncing && phase == ConfigFetch
      modifies this`phase
      ensures Valid() && r == Running && phase == Snapshot
    {
      hide Settled, AllSettled, Asked;
      phase := Snapshot;
      return Running;
    }
  }

  // ---------------------------------------------------------------- whole lives

  datatype Happening =
    | Written(f: Session) | Marked | Purged(i: nat) | Begun | Stepped(w: Weather) | TornDown

  /**
    Any interleaving of the uploader with the logger.  When the flag is down after a successful run
    that was told the whole truth, the server has every session on flash, or will never take it.
  */
  method Live(c: CloudSync, happenings: seq<Happening>)
    requires c.Valid()
    modifies c
    ensures c.Valid()
    ensures c.trusted && !c.HasUnsynced() ==>
      forall f :: c.OnFlash(f) ==> f in c.held || f in c.rejected
  {
    var i := 0;
    while i < |happenings|
      invariant 0 <= i <= |happenings|
      invariant c.Valid()
    {
      hide CloudSync.RunOk, CloudSync.AllSettled;
      match happenings[i] {
        case Written(f) =>
          var taken, at := c.Find(f.id);
          if !taken {
            c.WriteSession(f);
          }
        case Marked => c.MarkDirty();
        case Purged(at) =>
          if at < |c.files| {
            c.Purge(at);
          }
        case Begun =>
          if !c.syncing {
            c.BeginRun();
          }
        case Stepped(w) =>
          var r := c.Step(w);
        case TornDown => c.AbortRun();
      }
      i := i + 1;
    }
  }

  /** Nothing goes wrong with an upload. */
  predicate Fair(w: Weather) {
    w.memory && w.readOk && (w.status == 200 || w.status == 201 || w.status == 422)
  }

  /** One file that is on flash goes to the server. */
  method FairUpload(c: CloudSync, w: Weather)
    requires c.Valid() && c.syncing && c.phase == Upload && Fair(w)
    requires c.wantIndex < |c.wantIds| && c.runUploaded < MAX_UPLOADS
    requires c.Stored(c.wantIds[c.wantIndex])
    modifies c`wantIds, c`wantIndex, c`runUploaded, c`lastWanted, c`phase, c`configRefreshed, c`faithful, c`known,
             c`held, c`rejected, c`lastResult, c`lastUploaded, c`lastSynced, c`syncing, c`trusted
    ensures c.Valid() && c.syncing && c.phase == Upload && c.wantIds == old(c.wantIds)
    ensures c.wantIndex == old(c.wantIndex) + 1 && c.runUploaded == old(c.runUploaded) + 1
    ensures forall f :: f in c.files && (f.id == old(c.wantIds[c.wantIndex]) || old(c.Settled(f))) ==> c.Settled(f)
    ensures c.lastWanted == old(c.lastWanted) && c.faithful == old(c.faithful)
    ensures c.configRefreshed == old(c.configRefreshed)
  {
    hide CloudSync.Valid;
    var _ := c.Step(w);
  }

  /** The steps after the last upload, when there are no brew records. */
  method FairEnd(c: CloudSync, calm: Weather)
    requires c.Valid() && c.syncing && c.phase == BrewUpload && !c.configRefreshed && !calm.brews
    modifies c`wantIds, c`wantIndex, c`runUploaded, c`lastWanted, c`phase, c`configRefreshed, c`faithful, c`known,
             c`held, c`rejected, c`lastResult, c`lastUploaded, c`lastSynced, c`syncing, c`trusted
    ensures c.Valid() && !c.syncing && c.held == old(c.held) && c.rejected == old(c.rejected)
    ensures c.lastUploaded == old(c.runUploaded)
    ensures c.lastResult == if old(c.runUploaded < c.lastWanted) then Partial else Success
    ensures c.lastResult == Success ==> c.lastSynced == c.runVersion && c.trusted == old(c.faithful)
  {
    hide CloudSync.Valid, Parsed;
    var r := c.Step(calm);
    r := c.Step(calm);
    r := c.Step(calm);
  }

  function Fewer(a: nat, b: nat): (r: nat)
    ensures r <= a && r <= b && (r == a || r == b)
  {
    if a < b then a else b
  }

  /**
    A run in fair weather: the server's answer arrives, it names files on flash, and it answers for each of
    them.  The first hundred are settled; if that is all, the run is a success, and if the server named
    all it lacks, everything on flash is settled and the flag is down.
  */
  method FairRun(c: CloudSync, manifest: Weather, uploads: seq<Weather>, calm: Weather)
    requires c.Valid() && !c.syncing && manifest.memory && manifest.status == 200
    requires |manifest.want| <= manifest.received && |manifest.want| <= MAX_ENTRIES && !calm.brews
    requires forall i :: 0 <= i < |manifest.want| ==> c.Stored(manifest.want[i])
    requires |uploads| >= |manifest.want| && forall i :: 0 <= i < |uploads| ==> Fair(uploads[i])
    modifies c
    ensures c.Valid() && !c.syncing && c.files == old(c.files)
    ensures c.lastUploaded == Fewer(|manifest.want|, 100)
    ensures c.lastResult == if |manifest.want| <= 100 then Success else Partial
    ensures forall i, f :: 0 <= i < c.lastUploaded && f in c.files && f.id == manifest.want[i] ==> c.Settled(f)
    ensures |manifest.want| <= 100 ==> !c.HasUnsynced()
    ensures |manifest.want| <= 100 && old(c.WholeTruth(manifest)) ==> c.AllSettled()
  {
    hide CloudSync.Valid, CloudSync.WholeTruth, CloudSync.Stored, Parsed, Fair;
    ghost var truth := c.WholeTruth(manifest);
    c.BeginRun();
    assert c.WholeTruth(manifest) == truth;
    AllParsed(manifest.want, manifest.received);
    var r := c.Step(manifest);
    var n, i := Fewer(|manifest.want|, MAX_UPLOADS), 0;
    while i < n
      invariant 0 <= i <= n && c.Valid() && c.syncing && c.phase == (if n > 0 then Upload else BrewUpload)
      invariant c.wantIds == manifest.want && c.wantIndex == i == c.runUploaded && c.lastWanted == |manifest.want|
      invariant forall k, f :: 0 <= k < i && f in c.files && f.id == manifest.want[k] ==> c.Settled(f)
      invariant c.faithful == truth && !c.configRefreshed && c.runVersion == c.version && c.files == old(c.files)
      invariant forall k :: 0 <= k < |manifest.want| ==> c.Stored(manifest.want[k])
      modifies c
    {
      FairUpload(c, uploads[i]);
      i := i + 1;
    }
    if n > 0 {
      r := c.Step(calm);
    }
    FairEnd(c, calm);
    ReadOff(c);
  }

  lemma AllParsed(want: seq<nat>, received: nat)
    requires |want| <= received && |want| <= MAX_ENTRIES
    ensures Parsed(want, received) == want
  {
  }

  lemma ReadOff(c: CloudSync)
    requires c.Valid()
    ensures c.trusted && !c.HasUnsynced() ==> c.AllSettled()
  {
  }

  /** A run in which no id arrives from the server is a success without an upload. */
  method EmptyRun(c: CloudSync, w: Weather)
    requires c.Valid() && c.syncing && c.phase == Manifest && c.runUploaded == 0 && !c.configRefreshed
    requires w.memory && w.status == 200 && w.received == 0 && !w.brews
    modifies c
    ensures c.Valid() && c.lastResult == Success && c.lastSynced == c.runVersion == old(c.runVersion)
    ensures c.held == old(c.held) && c.rejected == old(c.rejected)
    ensures c.files == old(c.files) && c.version == old(c.version)
  {
    assert Parsed(w.want, w.received) == [];
    hide CloudSync.Valid, CloudSync.RunOk, CloudSync.AllSettled, Parsed;
    var r := c.Step(w);
    r := c.Step(w);
    r := c.Step(w);
    r := c.Step(w);
  }

  /**
    The answer to the manifest gets lost after its status line.  The run still ends as a success, the
    flag goes down, and the session is nowhere but on the device.
  */
  method LostAnswer(f: Session) returns (c: CloudSync)
    requires WellFormed(f)
    ensures c.lastResult == Success && !c.HasUnsynced()
    ensures f in c.files && f !in c.held && f !in c.rejected
  {
    c := new CloudSync([], 0, {});
    hide CloudSync.AllSettled, CloudSync.RunOk, CloudSync.Valid;
    c.WriteSession(f);
    c.MarkDirty();
    c.BeginRun();
    EmptyRun(c, Weather(true, 200, [f.id], 0, false, true, false));
  }
}
