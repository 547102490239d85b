/** Restoring the liveness bookkeeping at boot: lapsed deadlines are raised so that downtime
    does not mass-expire what live producers have not yet re-asserted. */
module LivenessRestore {
  import opened Text
  import opened Model
  import A = Aliases
  import C = ChangeEngine

  /** Raise a restored deadline to one interval from now. */
  function FloorDeadline(d: A.Deadline, interval: int, now: Time): A.Deadline {
    if d == A.Never || interval <= 0 then d
    else if d.t < now + interval then A.By(now + interval)
    else d
  }

  /** An entity reference comes back with an unbelievable promise, and the deadline made
      from it, refused. */
  function RestoreRef(ref: A.Ref, now: Time): A.Ref {
    var kept := C.Promise(ref.interval);
    var d := if kept == 0 && ref.interval > 0 then A.Never else ref.deadline;
    A.Ref(FloorDeadline(d, kept, now), kept)
  }

  /** An edge reference comes back with its own interval. */
  function RestoreEdgeRef(ref: A.Ref, now: Time): A.Ref {
    A.Ref(FloorDeadline(ref.deadline, ref.interval, now), ref.interval)
  }

  function RestoreSpeakers(refs: A.Refs, now: Time, entity: bool): A.Refs {
    map k | k in refs :: if entity then RestoreRef(refs[k], now) else RestoreEdgeRef(refs[k], now)
  }

  function Restored<K>(refs: map<K, A.Refs>, now: Time, entity: bool): map<K, A.Refs> {
    map k | k in refs :: RestoreSpeakers(refs[k], now, entity)
  }

  /** When a reference saved with liveness has lapsed after a restart at now: when it would have,
      and not before one interval from the restart. An entity reference on an interval of more
      than a week never does. */
  ghost predicate LapsesBy(saved: A.Ref, now: Time, entity: bool, t: Time) {
    match saved.deadline
    case Never => false
    case By(x) =>
      if saved.interval <= 0 then x < t
      else if entity && saved.interval > WEEK then false
      else x < t && now + saved.interval < t
  }

  /** The references are the saved ones, each lapsing exactly as it should. */
  ghost predicate LapsingAsSaved<K(!new)>(saved: map<K, A.Refs>, refs: map<K, A.Refs>, now: Time, entity: bool) {
    && refs.Keys == saved.Keys
    && forall k :: k in saved ==>
      && refs[k].Keys == saved[k].Keys
      && (forall key, t :: key in saved[k] ==>
            (A.Lapsed(refs[k][key], t) <==> LapsesBy(saved[k][key], now, entity, t)))
      && forall key :: key in saved[k] ==>
        refs[k][key].interval == if entity && saved[k][key].interval > WEEK then 0 else saved[k][key].interval
  }

  lemma RestoredLapses<K(!new)>(saved: map<K, A.Refs>, now: Time, entity: bool)
    ensures LapsingAsSaved(saved, Restored(saved, now, entity), now, entity)
  {
  }

  /** Every speaker of the saved references is there, and lapses no earlier. */
  ghost predicate Outlasting<K(!new)>(saved: map<K, A.Refs>, refs: map<K, A.Refs>) {
    forall k, key :: k in saved && key in saved[k] ==>
      k in refs && key in refs[k] && A.Outlasts(refs[k][key].deadline, saved[k][key].deadline)
  }

  /** A restart takes no speaker's hold away, and shortens none. */
  lemma RestoredOutlasts<K(!new)>(saved: map<K, A.Refs>, now: Time, entity: bool)
    ensures Outlasting(saved, Restored(saved, now, entity))
  {
  }

  /** No entity whose speakers keep believable intervals expires in the first interval after
      a restart, however long the downtime. */
  lemma NoMassExpiry<K(!new)>(refs: map<K, A.Refs>, k: K, key: Str, now: Time, t: Time)
    requires k in refs && key in refs[k] && 0 < refs[k][key].interval <= WEEK &&
      t <= now + refs[k][key].interval
    ensures A.Unlapsed(Restored(refs, now, true)[k], t) != map[]
  {
    assert key in A.Unlapsed(Restored(refs, now, true)[k], t);
  }

  /** The restore as the nested loops of the boot path, over the saved maps. */
  method RestoreLiveness<K(!new, ==)>(saved: map<K, A.Refs>, now: Time, entity: bool) returns (refs: map<K, A.Refs>)
    ensures refs == Restored(saved, now, entity)
    ensures LapsingAsSaved(saved, refs, now, entity) && Outlasting(saved, refs)
  {
    refs := map[];
    var todo := saved.Keys;
    while todo != {}
      invariant todo <= saved.Keys && refs.Keys == saved.Keys - todo
      invariant forall k :: k in refs ==> refs[k] == RestoreSpeakers(saved[k], now, entity)
      decreases |todo|
    {
      hide RestoreSpeakers;
      var k :| k in todo;
      var ps := RestoreSpeakersLoop(saved[k], now, entity);
      refs := refs[k := ps];
      todo := todo - {k};
    }
    assert refs == Restored(saved, now, entity);
    RestoredOutlasts(saved, now, entity);
    RestoredLapses(saved, now, entity);
  }

  /** A deadline saved without a speaker is the anonymous speaker's reference. */
  function Anonymous(saved: A.Ref, now: Time): A.Refs {
    map[[] := A.Ref(FloorDeadline(saved.deadline, saved.interval, now), saved.interval)]
  }

  /** Only the anonymous speaker refers, and lapses as the saved deadline should. */
  ghost predicate AnonymousUntil(refs: A.Refs, saved: A.Ref, now: Time) {
    refs.Keys == {[]} && forall t :: A.Lapsed(refs[[]], t) <==> LapsesBy(saved, now, false, t)
  }

  lemma AnonymousLapses(saved: A.Ref, now: Time)
    ensures AnonymousUntil(Anonymous(saved, now), saved, now)
  {
  }

  /** Edges that were saved with a deadline and no speaker come back as the anonymous speaker's,
      unless they have references already. */
  method RestoreDeadlines<K(!new, ==)>(refs: map<K, A.Refs>, deadlines: map<K, A.Ref>, now: Time)
    returns (all: map<K, A.Refs>)
    ensures forall k :: k in all <==> k in refs || k in deadlines
    ensures forall k :: k in refs ==> all[k] == refs[k]
    ensures forall k :: k in deadlines && k !in refs ==> AnonymousUntil(all[k], deadlines[k], now)
  {
    hide Anonymous, AnonymousUntil;
    all := refs;
    var todo := deadlines.Keys;
    while todo != {}
      invariant todo <= deadlines.Keys && forall k :: k in all <==> k in refs || (k in deadlines && k !in todo)
      invariant forall k :: k in refs ==> all[k] == refs[k]
      invariant forall k :: k in all && k !in refs ==> all[k] == Anonymous(deadlines[k], now)
      decreases |todo|
    {
      var k :| k in todo;
      if k !in refs {
        all := all[k := Anonymous(deadlines[k], now)];
      }
      todo := todo - {k};
    }
    forall k | k in deadlines && k !in refs
      ensures AnonymousUntil(all[k], deadlines[k], now)
    {
      AnonymousLapses(deadlines[k], now);
    }
  }

  method RestoreSpeakersLoop(speakers: A.Refs, now: Time, entity: bool) returns (ps: A.Refs)
    ensures ps == RestoreSpeakers(speakers, now, entity)
  {
    ps := map[];
    var todo := speakers.Keys;
    while todo != {}
      invariant todo <= speakers.Keys && ps.Keys == speakers.Keys - todo
      invariant forall k :: k in ps ==> ps[k] == RestoreSpeakers(speakers, now, entity)[k]
      decreases |todo|
    {
      var p :| p in todo;
      var ref := speakers[p];
      if entity {
        var kept := C.Promise(ref.interval);
        if kept == 0 && ref.interval > 0 {
          ref := ref.(deadline := A.Never);
        }
        ps := ps[p := A.Ref(FloorDeadline(ref.deadline, kept, now), kept)];
      } else {
        ps := ps[p := A.Ref(FloorDeadline(ref.deadline, ref.interval, now), ref.interval)];
      }
      todo := todo - {p};
    }
    assert ps == RestoreSpeakers(speakers, now, entity);
  }
}
