/** The file that holds the checkpoint: written whole or not at all, and checked when it is opened. */
module StateStore {
  import opened Bytes
  import opened Telemetry
  import opened Listing
  import opened EngineState
  import opened EngineCore
  import opened Engine
  import opened Snapshot
  import opened Checkpoint
  import Identity

  /** The JSON text of a state, which may not have one, and the checksum of a text. */
  datatype StateCodec = StateCodec(marshal: State -> Option<seq<byte>>, unmarshal: seq<byte> -> Option<State>, crc: seq<byte> -> nat) {
    ghost predicate Lawful() {
      forall s: State :: marshal(s).Some? ==> unmarshal(marshal(s).value) == Some(s)
    }
  }

  /** Where a save stops: not at all, before the new file takes the name of the old one, or after it. */
  datatype Fault = NoFault | BeforeRename | AfterRename

  datatype SaveError = Unencodable | SaveFailed

  datatype OpenError = Undecodable | UnsupportedVersion | ChecksumMismatch | Damaged(damage: Damage)

  /** The text of a state with the checksum of its text without one, if both can be encoded. */
  function Sealed(k: StateCodec, s: State): Option<seq<byte>> {
    match k.marshal(s.(checksum := 0))
    case None => None
    case Some(canonical) => k.marshal(s.(checksum := k.crc(canonical)))
  }

  /**
   * `Save`; a state that cannot be encoded, like any other failure, leaves the file as it was; if only the directory
   * could not be synced, the file is as it was to be.
   */
  method Save(k: StateCodec, ids: Ids, file: Option<seq<byte>>, e: Engine, fault: Fault)
    returns (r: Result<nat, SaveError>, saved: Option<seq<byte>>, ghost s: State)
    ensures Describes(ids, ContentsOf(e), s) && (r.Ok? <==> fault.NoFault? && Sealed(k, s).Some?)
    ensures r == Err(Unencodable) <==> Sealed(k, s) == None
    ensures saved == if fault.BeforeRename? || Sealed(k, s) == None then file else Sealed(k, s)
    ensures r.Ok? ==> saved.Some? && r.value == |saved.value|
  {
    hide Describes, ContentsOf;
    var state := Persist(ids, e);
    PlainChecksum(ids, ContentsOf(e), state);
    s := state;
    var canonical := k.marshal(state);
    if canonical == None { return Err(Unencodable), file, s; }
    var data := k.marshal(state.(checksum := k.crc(canonical.value)));
    if data == None { return Err(Unencodable), file, s; }
    match fault
    case NoFault => return Ok(|data.value|), data, s;
    case BeforeRename => return Err(SaveFailed), file, s;
    case AfterRename => return Err(SaveFailed), data, s;
  }

  lemma PlainChecksum(ids: Ids, c: Contents, s: State)
    requires Describes(ids, c, s)
    ensures s.(checksum := 0) == s
  {}

  /** The files that can be opened. */
  ghost predicate Acceptable(k: StateCodec, data: seq<byte>) {
    && k.unmarshal(data).Some?
    && var s := k.unmarshal(data).value;
       && s.version == STATE_VERSION && s.checksum != 0 && Intact(s)
       && k.marshal(s.(checksum := 0)).Some? && k.crc(k.marshal(s.(checksum := 0)).value) == s.checksum
  }

  /** `OpenStateStore`. */
  method Open(k: StateCodec, l: Identity.Letters, file: Option<seq<byte>>, requested: Options, applicationName: string, nodeVersion: string,
              ghost past: Past, ghost evicted: bool)
    returns (r: Result<Engine, OpenError>)
    requires file == None ==> past == NO_PAST && !evicted
    ensures file == None ==> r.Ok? && ContentsOf(r.value) == Contents(
      Defaulted(requested), NOTHING, Filled(Identity.Trim(applicationName, l.space)), if nodeVersion == "" then "unknown" else nodeVersion, 0, None)
    ensures file.Some? ==> (r.Ok? <==> Acceptable(k, file.value))
    ensures file.Some? && r.Ok? ==> ContentsOf(r.value) == Restored(l, k.unmarshal(file.value).value, requested, applicationName, nodeVersion)
    ensures r.Ok? ==> fresh(r.value) && r.value.past == past && r.value.evicted == evicted
  {
    hide UpToDate, Restored, Intact, Identity.Trim, Defaulted, Filled;
    if file == None {
      var engine := new Engine(l, requested, applicationName, nodeVersion);
      return Ok(engine);
    }
    var state := k.unmarshal(file.value);
    if state == None { return Err(Undecodable); }
    if state.value.version != STATE_VERSION { return Err(OpenError.UnsupportedVersion); }
    var checksum := state.value.checksum;
    var canonical := k.marshal(state.value.(checksum := 0));
    if canonical == None || checksum == 0 || k.crc(canonical.value) != checksum { return Err(ChecksumMismatch); }
    var restored := Restore(l, state.value, requested, applicationName, nodeVersion, past, evicted);
    if restored.Err? { return Err(Damaged(restored.error)); }
    return Ok(restored.value);
  }

  /** What restoring makes of a state does not depend on its checksum. */
  lemma ChecksumIrrelevant(l: Identity.Letters, s: State, checksum: nat, requested: Options, applicationName: string, nodeVersion: string)
    ensures Intact(s.(checksum := checksum)) <==> Intact(s)
    ensures Restored(l, s.(checksum := checksum), requested, applicationName, nodeVersion) == Restored(l, s, requested, applicationName, nodeVersion)
  {}

  /**
   * A saved checkpoint can be opened exactly if its checksum does not happen to be zero, which stands for no checksum,
   * and no retained span lacks an ID; opening it gives the engine that was saved.
   */
  lemma SavedOpens(k: StateCodec, l: Identity.Letters, ids: Ids, c: Contents, past: Past, evicted: bool, s: State,
                   requested: Options, applicationName: string, nodeVersion: string)
    requires k.Lawful() && Describes(ids, c, s) && Checkpoint.SameSettings(l, c, requested, applicationName)
    requires Core(c.options.naming, c.view, past, evicted) && Proper(c.options.naming, ids) && Apart(ids, c.view.paths)
    requires Sealed(k, s).Some?
    ensures k.marshal(s).Some?
    ensures Acceptable(k, Sealed(k, s).value) <==> k.crc(k.marshal(s).value) != 0 && Labelled(c.view.traces)
    ensures k.unmarshal(Sealed(k, s).value).Some?
    ensures Restored(l, k.unmarshal(Sealed(k, s).value).value, requested, applicationName, nodeVersion) == c
  {
    hide Core, Proper, Apart, Labelled, Restored, Intact, Checkpoint.SameSettings;
    PlainChecksum(ids, c, s);
    var checksum := k.crc(k.marshal(s).value);
    var marked := s.(checksum := checksum);
    assert marked.(checksum := 0) == s && Sealed(k, s) == k.marshal(marked);
    assert k.unmarshal(Sealed(k, s).value) == Some(marked);
    ChecksumIrrelevant(l, s, checksum, requested, applicationName, nodeVersion);
    StateRoundTrip(l, ids, c, past, evicted, s, requested, applicationName, nodeVersion);
  }

  // --- Lawful codecs exist.

  /** A codec that encodes the listed states, each by its place in the list. */
  function Listed(states: seq<State>, checksum: nat): StateCodec {
    StateCodec(
      s => if FirstIndex(states, s) < |states| then Some(seq(FirstIndex(states, s), _ => 0)) else None,
      b => if |b| < |states| then Some(states[|b|]) else None,
      b => checksum)
  }

  /** Whatever states a run saves, some lawful codec encodes them all: with these, no save has to fail. */
  lemma CodecFor(states: seq<State>) returns (k: StateCodec)
    ensures k.Lawful() && forall s :: s in states ==> Sealed(k, s).Some?
  {
    var both := states + seq(|states|, i requires 0 <= i < |states| => states[i].(checksum := 0))
                       + seq(|states|, i requires 0 <= i < |states| => states[i].(checksum := 1));
    k := Listed(both, 1);
    forall s: State ensures k.marshal(s).Some? <==> s in both {
      FirstIndexIs(both, s);
    }
    forall s: State | k.marshal(s).Some? ensures k.unmarshal(k.marshal(s).value) == Some(s) {
      FirstIndexIs(both, s);
    }
    forall s | s in states ensures Sealed(k, s).Some? {
      var i :| 0 <= i < |states| && states[i] == s;
      assert both[|states| + i] == s.(checksum := 0) && both[2 * |states| + i] == s.(checksum := 1);
      assert s.(checksum := 0) in both && s.(checksum := 1) in both;
    }
  }
}
