/** Commit, recovery and staging cleanup as the program runs them, on a machine that may fail any file
    operation and may die at any one of them. */
module Recovery {
  import opened Prelude
  import opened RawStore

  predicate ValidNote(env: Env, d: Disk, id: string) {
    id in d.notes && d.notes[id].Decoded? && Valid(env, d.notes[id].c) && d.notes[id].c.id == id
  }

  /** A staged sidecar whose commit can still be finished. */
  predicate Finishable(env: Env, d: Disk, id: string) {
    && ValidNote(env, d, id)
    && var b, sha := BaseOf(env, d.notes[id].c), d.notes[id].c.bodySha256;
       && b !in d.sidecars
       && (if b in d.raw then env.digest(d.raw[b]) == sha else id in d.payloads && env.digest(d.payloads[id]) == sha)
  }

  /** A staged sidecar whose commit was finished already. */
  predicate Duplicate(env: Env, d: Disk, id: string) {
    && ValidNote(env, d, id)
    && var b := BaseOf(env, d.notes[id].c);
       b in d.sidecars && b in d.raw && env.digest(d.raw[b]) == d.notes[id].c.bodySha256
  }

  // ---- what recovery counts as corrupt ----

  /** Staged sidecars that can neither be finished nor dropped. */
  function CorruptNotes(env: Env, d: Disk, ids: set<string>): set<string> {
    set id | id in ids && !Finishable(env, d, id) && !Duplicate(env, d, id)
  }

  /** Sidecars that do not name their place and a payload of their hash in it. */
  function BadSidecars(env: Env, d: Disk, bases: set<string>): set<string> {
    set b | b in bases && !Paired(env, d, b)
  }

  function LonePayloads(d: Disk, bases: set<string>): set<string> {
    set b | b in bases && b !in d.sidecars
  }

  const RETAINED: string := "@retained/"

  predicate HasFile(bases: set<string>, path: string, extension: string) {
    |extension| <= |path| && path == path[..|path|-|extension|] + extension && path[..|path|-|extension|] in bases
  }

  /** A row that should still have both files and does not. */
  predicate FilesMissing(d: Disk, c: Capture) {
    && !(RETAINED <= c.rawPath)
    && !(HasFile(d.raw.Keys, c.rawPath, ".pb") && HasFile(d.sidecars.Keys, c.sidecarPath, ".json"))
  }

  function MissingRows(d: Disk, rows: map<string, Capture>, ids: set<string>): set<string> {
    set id | id in ids && id in rows && FilesMissing(d, rows[id])
  }

  function CorruptFiles(env: Env, d: Disk, rows: map<string, Capture>): nat {
    |BadSidecars(env, d, d.sidecars.Keys)| + |LonePayloads(d, d.raw.Keys)| + |MissingRows(d, rows, rows.Keys)|
  }

  predicate NoneFinishable(env: Env, d: Disk) {
    forall id :: id in d.notes ==> !Finishable(env, d, id)
  }

  /** The commit of a new capture: its body is staged and none of its names is taken. */
  ghost predicate Fresh(env: Env, d: Disk, j: Job) {
    Ready(env, j) && Safe(env, d) && Stage(env, d, j, 0)
  }

  /** Nothing in raw/ is half committed. */
  predicate NoOrphans(d: Disk) {
    forall b :: b in d.raw ==> b in d.sidecars
  }

  predicate Registered(env: Env, d: Disk, rows: map<string, Capture>) {
    forall b :: b in d.sidecars && Paired(env, d, b) ==> d.sidecars[b].c.id in rows
  }

  /** Every base path is complete (payload, sidecar, row, hash) or absent from raw/. */
  ghost predicate CompleteOrAbsent(env: Env, d: Disk, rows: map<string, Capture>) {
    forall b :: b in d.raw || b in d.sidecars ==> Paired(env, d, b) && d.sidecars[b].c.id in rows
  }

  /** The same as far as the check goes: what it accepts is complete, and what it refuses is as it was, a pair without a
      row perhaps, or a payload whose staged sidecar is still there. */
  ghost predicate CompleteOrRefused(env: Env, meant: Env, d: Disk, rows: map<string, Capture>) {
    && (forall b :: b in d.sidecars ==>
        Paired(meant, d, b) && (Valid(env, d.sidecars[b].c) ==> d.sidecars[b].c.id in rows))
    && (forall b :: b in d.raw && b !in d.sidecars ==>
        exists id :: Supports(meant, d, id, b) && !Valid(env, d.notes[id].c))
  }

  /** A row registered by recovery is the content of a complete pair. */
  predicate FromSidecar(env: Env, d: Disk, id: string, c: Capture) {
    c.id == id && exists b :: b in d.sidecars && Paired(env, d, b) && d.sidecars[b].c == c
  }

  /** The capture is committed: its sidecar and the payload it describes are in raw/. */
  predicate Completed(env: Env, d: Disk, c: Capture) {
    && Valid(env, c) && BaseOf(env, c) in d.sidecars && d.sidecars[BaseOf(env, c)] == Decoded(c)
    && BaseOf(env, c) in d.raw && env.digest(d.raw[BaseOf(env, c)]) == c.bodySha256
  }

  /** Everything recovery needs to commit the capture is on disk. */
  predicate Pending(env: Env, d: Disk, c: Capture) {
    Finishable(env, d, c.id) && d.notes[c.id] == Decoded(c)
  }

  predicate OnItsWay(env: Env, d: Disk, c: Capture) {
    Completed(env, d, c) || Pending(env, d, c)
  }

  /** Recovery runs with the check `env` where `meant` is the one that says what a capture is: whatever it accepts of
      this disk, the other accepts with the same base path. */
  ghost predicate Agrees(env: Env, meant: Env, d: Disk) {
    && env.digest == meant.digest
    && (forall id :: id in d.notes && d.notes[id].Decoded? ==> SameCheck(env, meant, d.notes[id].c))
    && (forall b :: b in d.sidecars && d.sidecars[b].Decoded? ==> SameCheck(env, meant, d.sidecars[b].c))
  }

  predicate SameCheck(env: Env, meant: Env, c: Capture) {
    Valid(env, c) ==> meant.check(c) == env.check(c)
  }

  predicate NoValidNote(env: Env, d: Disk) {
    forall id :: id in d.notes ==> !ValidNote(env, d, id)
  }

  /** No staged or committed sidecar passes the identity check. */
  predicate NothingValid(env: Env, d: Disk) {
    && NoValidNote(env, d)
    && (forall b :: b in d.sidecars ==> !(d.sidecars[b].Decoded? && Valid(env, d.sidecars[b].c)))
  }

  /** Every committed capture the check accepts has its row. */
  ghost predicate AllRows(env: Env, meant: Env, d: Disk, rows: map<string, Capture>) {
    forall c :: Completed(meant, d, c) && Valid(env, c) ==> c.id in rows
  }

  /** Any part of finishing, or dropping, the staged sidecar `id` of base path `b`. */
  predicate FinishedPart(d: Disk, e: Disk, id: string, b: string) {
    && (e.raw == d.raw || (b !in d.raw && id in d.payloads && e.raw == d.raw[b := d.payloads[id]]))
    && (if e.sidecars == d.sidecars then e.notes == d.notes || e.notes == d.notes - {id}
        else
          && b !in d.sidecars && id in d.notes && e.sidecars == d.sidecars[b := d.notes[id]]
          && e.notes == d.notes - {id})
    && (e.payloads == d.payloads || e.payloads == d.payloads - {id})
  }

  /** It leaves every other staged sidecar as finishable, or not, as it was. */
  lemma OthersUnmoved(env: Env, d: Disk, e: Disk, id: string, b: string, other: string)
    requires Sound(env) && ValidNote(env, d, id) && BaseOf(env, d.notes[id].c) == b && other != id
    requires FinishedPart(d, e, id, b)
    ensures other in d.notes <==> other in e.notes
    ensures other in d.notes ==> e.notes[other] == d.notes[other]
    ensures Finishable(env, e, other) <==> Finishable(env, d, other)
    ensures Duplicate(env, e, other) <==> Duplicate(env, d, other)
  {
    if ValidNote(env, d, other) {
      assert BaseOf(env, d.notes[other].c) != b;
    }
  }

  predicate StillFinishable(env: Env, d: Disk, e: Disk, id: string) {
    Finishable(env, e, id) && id in d.notes && e.notes[id] == d.notes[id]
  }

  /** What recovery does to a disk, whatever it meets: raw/ stays safe, committed captures stay committed, pending ones
      are not thrown back, and of those the check accepts the settled ones are committed; those it refuses stay pending.
      The work left does not grow. */
  ghost predicate Forward(env: Env, meant: Env, d: Disk, e: Disk, settled: set<string>) {
    && Agrees(env, meant, e) && (Safe(meant, d) ==> Safe(meant, e))
    && (forall c :: Completed(meant, d, c) ==> Completed(meant, e, c))
    && (forall c :: Pending(meant, d, c) ==> Carried(env, meant, e, c, settled))
    && |e.notes| <= |d.notes| && |e.notes| + |e.sidecars| <= |d.notes| + |d.sidecars|
  }

  predicate Carried(env: Env, meant: Env, e: Disk, c: Capture, settled: set<string>) {
    if Valid(env, c) then OnItsWay(meant, e, c) && (c.id in settled ==> Completed(meant, e, c))
    else Pending(meant, e, c)
  }

  lemma ForwardNot(env: Env, meant: Env, d: Disk, settled: set<string>)
    requires Agrees(env, meant, d) && forall c :: Pending(meant, d, c) && Valid(env, c) ==> c.id !in settled
    ensures Forward(env, meant, d, d, settled)
  {
  }

  lemma ForwardFewer(env: Env, meant: Env, d: Disk, e: Disk, s: set<string>, t: set<string>)
    requires Forward(env, meant, d, e, s) && t <= s
    ensures Forward(env, meant, d, e, t)
  {
    forall c | Pending(meant, d, c) ensures Carried(env, meant, e, c, t) {
      assert Carried(env, meant, e, c, s);
    }
  }

  lemma ForwardTwice(env: Env, meant: Env, a: Disk, b: Disk, c: Disk, s: set<string>, t: set<string>)
    requires Forward(env, meant, a, b, s) && Forward(env, meant, b, c, t)
    ensures Forward(env, meant, a, c, s + t)
  {
    forall x | Pending(meant, a, x) ensures Carried(env, meant, c, x, s + t) {
      assert Carried(env, meant, b, x, s);
      if Pending(meant, b, x) { assert Carried(env, meant, c, x, t); }
    }
  }

  /** A pass that settles what it finds settles what was pending before. */
  lemma ForwardThen(env: Env, meant: Env, a: Disk, b: Disk, c: Disk)
    requires Forward(env, meant, a, b, {}) && Forward(env, meant, b, c, b.notes.Keys)
    ensures Forward(env, meant, a, c, a.notes.Keys)
  {
    forall x | Pending(meant, a, x) ensures Carried(env, meant, c, x, a.notes.Keys) {
      assert Carried(env, meant, b, x, {});
      if Pending(meant, b, x) { assert Carried(env, meant, c, x, b.notes.Keys); }
    }
  }

  lemma ForwardAgain(env: Env, meant: Env, a: Disk, b: Disk, c: Disk, ok: bool)
    requires Forward(env, meant, a, b, {}) && Forward(env, meant, b, c, if ok then b.notes.Keys else {})
    ensures Forward(env, meant, a, c, {}) && (ok ==> Forward(env, meant, a, c, a.notes.Keys))
  {
    if ok {
      ForwardThen(env, meant, a, b, c);
      ForwardFewer(env, meant, a, c, a.notes.Keys, {});
    } else {
      ForwardTwice(env, meant, a, b, c, {}, {});
      ForwardFewer(env, meant, a, c, {} + {}, {});
    }
  }

  /** What a finished recovery of `d` has made of the captures on their way: committed, with a row, exactly those the
      check accepts. */
  ghost predicate Recovered(env: Env, meant: Env, d: Disk, e: Disk, rows: map<string, Capture>) {
    forall c :: OnItsWay(meant, d, c) ==>
      && (Completed(meant, e, c) <==> Completed(meant, d, c) || Valid(env, c))
      && (Valid(env, c) ==> c.id in rows)
  }

  lemma SettledExactly(env: Env, meant: Env, d: Disk, e: Disk, rows: map<string, Capture>)
    requires Agrees(env, meant, d) && Forward(env, meant, d, e, d.notes.Keys) && AllRows(env, meant, e, rows)
    ensures Recovered(env, meant, d, e, rows)
  {
    forall c | OnItsWay(meant, d, c)
      ensures && (Completed(meant, e, c) <==> Completed(meant, d, c) || Valid(env, c))
              && (Valid(env, c) ==> c.id in rows)
    {
      if Pending(meant, d, c) { assert Carried(env, meant, e, c, d.notes.Keys); }
    }
  }

  /** A recovery of `d` has run to its end. */
  ghost predicate Finished(env: Env, meant: Env, d: Disk, e: Disk, rows: map<string, Capture>) {
    && Forward(env, meant, d, e, d.notes.Keys) && AllRows(env, meant, e, rows)
    && CompleteOrRefused(env, meant, e, rows) && NoneFinishable(env, e)
  }

  lemma FinishedIsRecovered(env: Env, meant: Env, d: Disk, e: Disk, rows: map<string, Capture>)
    requires Agrees(env, meant, d) && Finished(env, meant, d, e, rows)
    ensures Recovered(env, meant, d, e, rows) && (meant == env ==> CompleteOrAbsent(env, e, rows))
  {
    SettledExactly(env, meant, d, e, rows);
    if meant == env { RefusedIsAbsent(env, e, rows); }
  }

  lemma EverythingRegistered(env: Env, meant: Env, d: Disk, rows: map<string, Capture>)
    requires Agrees(env, meant, d) && Registered(env, d, rows)
    ensures AllRows(env, meant, d, rows)
    ensures Safe(meant, d) && NoneFinishable(env, d) ==> CompleteOrRefused(env, meant, d, rows)
  {
    forall c | Completed(meant, d, c) && Valid(env, c) ensures c.id in rows {
      assert Paired(env, d, BaseOf(env, c));
    }
    if Safe(meant, d) && NoneFinishable(env, d) { RefusedRemain(env, meant, d, rows); }
  }

  /** Where the check refuses nothing that is meant, nothing stays refused. */
  lemma RefusedIsAbsent(env: Env, d: Disk, rows: map<string, Capture>)
    requires CompleteOrRefused(env, env, d, rows)
    ensures CompleteOrAbsent(env, d, rows)
  {
    forall b | b in d.raw || b in d.sidecars ensures Paired(env, d, b) && d.sidecars[b].c.id in rows {
      assert b !in d.sidecars ==> exists id :: Supports(env, d, id, b) && !Valid(env, d.notes[id].c);
      assert b in d.sidecars ==> Paired(env, d, b);
    }
  }

  lemma RefusedRemain(env: Env, meant: Env, d: Disk, rows: map<string, Capture>)
    requires Agrees(env, meant, d) && Registered(env, d, rows) && Safe(meant, d) && NoneFinishable(env, d)
    ensures CompleteOrRefused(env, meant, d, rows)
  {
    forall b | b in d.sidecars
      ensures Paired(meant, d, b) && (Valid(env, d.sidecars[b].c) ==> d.sidecars[b].c.id in rows)
    {
      assert Paired(meant, d, b);
      assert Valid(env, d.sidecars[b].c) ==> Paired(env, d, b);
    }
    forall b | b in d.raw && b !in d.sidecars
      ensures exists id :: Supports(meant, d, id, b) && !Valid(env, d.notes[id].c)
    {
      var id :| Supports(meant, d, id, b);
      assert Valid(env, d.notes[id].c) ==> Finishable(env, d, id);
    }
  }

  /** Whatever part happened, no capture is thrown back. */
  lemma PartKeepsPending(env: Env, d: Disk, e: Disk, id: string, b: string, c: Capture)
    requires Sound(env) && ValidNote(env, d, id) && BaseOf(env, d.notes[id].c) == b
    requires FinishedPart(d, e, id, b) && Pending(env, d, c)
    requires Finishable(env, d, id) ==> StillFinishable(env, d, e, id) || Completed(env, e, d.notes[id].c)
    ensures OnItsWay(env, e, c) && (c.id != id ==> Pending(env, e, c))
  {
    if c.id != id {
      OthersUnmoved(env, d, e, id, b, c.id);
    }
  }

  /** Recovery never adds to the work left. */
  lemma PartSizes(d: Disk, e: Disk, id: string, b: string)
    requires id in d.notes && FinishedPart(d, e, id, b)
    ensures |e.notes| <= |d.notes| && |e.notes| + |e.sidecars| <= |d.notes| + |d.sidecars|
  {
    if e.notes != d.notes { OneFewer(d.notes, id); }
    if e.sidecars != d.sidecars { OneMore(d.sidecars, b, d.notes[id]); }
  }

  lemma OneFewer(notes: map<string, Note>, id: string)
    requires id in notes
    ensures |notes - {id}| == |notes| - 1
  {
    assert (notes - {id}).Keys == notes.Keys - {id};
    assert |notes - {id}| == |(notes - {id}).Keys| && |notes| == |notes.Keys|;
  }

  lemma OneMore(notes: map<string, Note>, id: string, note: Note)
    requires id !in notes
    ensures |notes[id := note]| == |notes| + 1
  {
    assert notes[id := note].Keys == notes.Keys + {id};
    assert |notes[id := note]| == |notes[id := note].Keys| && |notes| == |notes.Keys|;
  }

  /** A staged sidecar whose payload has its sidecar, or is not in raw/, supports nothing. */
  lemma NoteUnneeded(env: Env, d: Disk, id: string, b: string)
    requires Safe(env, d) && id in d.notes && d.notes[id].Decoded? && Valid(env, d.notes[id].c)
      && BaseOf(env, d.notes[id].c) == b
    requires b in d.sidecars || b !in d.raw
    ensures Safe(env, Do(d, DropNote(id)))
  {
    var e := Do(d, DropNote(id));
    forall x | x in e.sidecars ensures Paired(env, e, x) {
      SamePair(env, d, e, x);
    }
    forall x | x in e.raw && x !in e.sidecars ensures exists i :: Supports(env, e, i, x) {
      var i :| Supports(env, d, i, x);
      assert i != id;
      SameSupport(env, d, e, i, x);
    }
  }

  lemma PartAgrees(env: Env, meant: Env, d: Disk, e: Disk, id: string, b: string)
    requires Agrees(env, meant, d) && FinishedPart(d, e, id, b)
    ensures Agrees(env, meant, e)
  {
  }

  /** The entry itself is still finishable, or committed; once handled, committed. */
  predicate EntryMoved(meant: Env, d: Disk, e: Disk, id: string, ok: bool) {
    Finishable(meant, d, id) ==>
      Completed(meant, e, d.notes[id].c) || (!ok && StillFinishable(meant, d, e, id))
  }

  lemma PartCarries(env: Env, meant: Env, d: Disk, e: Disk, id: string, b: string, ok: bool, c: Capture)
    requires Sound(meant) && ValidNote(env, d, id) && ValidNote(meant, d, id) && BaseOf(meant, d.notes[id].c) == b
    requires FinishedPart(d, e, id, b) && EntryMoved(meant, d, e, id, ok) && Pending(meant, d, c)
    ensures Carried(env, meant, e, c, if ok then {id} else {})
  {
    PartKeepsPending(meant, d, e, id, b, c);
  }

  /** A part of finishing an entry goes forward. */
  lemma PartIsForward(env: Env, meant: Env, d: Disk, e: Disk, id: string, b: string, ok: bool)
    requires Sound(meant) && Agrees(env, meant, d) && ValidNote(env, d, id) && BaseOf(env, d.notes[id].c) == b
    requires FinishedPart(d, e, id, b) && (Safe(meant, d) ==> Safe(meant, e)) && EntryMoved(meant, d, e, id, ok)
    ensures Forward(env, meant, d, e, if ok then {id} else {})
  {
    PartSizes(d, e, id, b);
    PartAgrees(env, meant, d, e, id, b);
    assert SameCheck(env, meant, d.notes[id].c);
    forall c | Pending(meant, d, c) ensures Carried(env, meant, e, c, if ok then {id} else {}) {
      PartCarries(env, meant, d, e, id, b, ok, c);
    }
  }

  /** And it makes no other staged sidecar finishable. */
  lemma PartFinishable(env: Env, d: Disk, e: Disk, id: string, b: string)
    requires Sound(env) && ValidNote(env, d, id) && BaseOf(env, d.notes[id].c) == b && FinishedPart(d, e, id, b)
    ensures forall other :: other != id && Finishable(env, e, other) ==> Finishable(env, d, other)
    ensures SameOthers(env, d, e, id)
  {
    forall other | other != id && Finishable(env, e, other) ensures Finishable(env, d, other) {
      OthersUnmoved(env, d, e, id, b, other);
    }
    forall other | other in d.notes && other != id
      ensures Finishable(env, e, other) <==> Finishable(env, d, other)
      ensures Duplicate(env, e, other) <==> Duplicate(env, d, other)
    {
      OthersUnmoved(env, d, e, id, b, other);
    }
  }

  ghost predicate SameOthers(env: Env, d: Disk, e: Disk, id: string) {
    forall other :: other in d.notes && other != id ==>
      && (Finishable(env, e, other) <==> Finishable(env, d, other))
      && (Duplicate(env, e, other) <==> Duplicate(env, d, other))
  }

  /** The entries handled so far are counted, and the others are as they were. */
  ghost predicate CountedSoFar(env: Env, first: Disk, d: Disk, left: set<string>, corrupt: nat) {
    && corrupt == |CorruptNotes(env, first, first.notes.Keys - left)|
    && (forall id :: id in left ==>
        && (Finishable(env, d, id) <==> Finishable(env, first, id))
        && (Duplicate(env, d, id) <==> Duplicate(env, first, id)))
  }

  lemma CountedEntry(env: Env, first: Disk, d: Disk, e: Disk, left: set<string>, id: string, corrupt: nat, bad: nat)
    requires CountedSoFar(env, first, d, left, corrupt) && SameOthers(env, d, e, id)
    requires id in left && left <= first.notes.Keys && left <= d.notes.Keys
    requires bad == if !Finishable(env, d, id) && !Duplicate(env, d, id) then 1 else 0
    ensures CountedSoFar(env, first, e, left - {id}, corrupt + bad)
  {
    var before := CorruptNotes(env, first, first.notes.Keys - left);
    assert CorruptNotes(env, first, first.notes.Keys - (left - {id})) == if bad == 1 then before + {id} else before;
  }

  /** Handling one staged sidecar touches no other, changes raw/ only for one that can be finished, and changes nothing
      for one that names no capture. */
  ghost predicate EntryOnly(env: Env, d: Disk, e: Disk, id: string, ok: bool) {
    && d.notes.Keys - {id} <= e.notes.Keys <= d.notes.Keys
    && (forall other :: other != id && Finishable(env, e, other) ==> Finishable(env, d, other))
    && (ok || !Finishable(env, d, id) ==> !Finishable(env, e, id))
    && (!ValidNote(env, d, id) ==> e == d)
    && (!Finishable(env, d, id) ==> e.raw == d.raw && e.sidecars == d.sidecars)
    && SameOthers(env, d, e, id)
  }

  /** What holds while the entries of `left` are still to be handled. */
  ghost predicate Swept(env: Env, first: Disk, d: Disk, left: set<string>) {
    && left <= d.notes.Keys <= first.notes.Keys
    && (forall id :: id in d.notes && id !in left ==> !Finishable(env, d, id))
    && (NoValidNote(env, first) ==> d == first)
    && (NoneFinishable(env, first) ==> NoneFinishable(env, d) && d.raw == first.raw && d.sidecars == first.sidecars)
  }

  lemma SweptEntry(env: Env, first: Disk, d: Disk, e: Disk, left: set<string>, id: string, ok: bool)
    requires Swept(env, first, d, left) && id in left && EntryOnly(env, d, e, id, ok)
    ensures ok ==> Swept(env, first, e, left - {id})
    ensures NoValidNote(env, first) ==> e == first
    ensures NoneFinishable(env, first) ==> e.raw == first.raw && e.sidecars == first.sidecars
  {
    assert forall i :: i in e.notes && i != id && Finishable(env, e, i) ==> Finishable(env, d, i);
  }

  lemma SweptAll(env: Env, meant: Env, first: Disk, d: Disk, left: set<string>)
    requires Swept(env, first, d, left) && Forward(env, meant, first, d, first.notes.Keys - left) && left == {}
    ensures NoneFinishable(env, d) && Forward(env, meant, first, d, first.notes.Keys)
  {
    assert first.notes.Keys - left == first.notes.Keys;
  }

  /** A staged sidecar that cannot be finished may stay where it is. */
  lemma EntryLeft(env: Env, meant: Env, d: Disk, id: string)
    requires Agrees(env, meant, d) && !Finishable(env, d, id)
    ensures Forward(env, meant, d, d, {id}) && EntryOnly(env, d, d, id, true)
  {
    ForwardNot(env, meant, d, {id});
  }

  /** One that names a capture is handled by doing any part of finishing it, or of dropping it when nothing needs it. */
  lemma EntryDone(env: Env, meant: Env, d: Disk, e: Disk, id: string, b: string, ok: bool)
    requires Sound(env) && Sound(meant) && Agrees(env, meant, d)
    requires ValidNote(env, d, id) && BaseOf(env, d.notes[id].c) == b
    requires FinishedPart(d, e, id, b) && (Safe(meant, d) ==> Safe(meant, e))
    requires EntryMoved(meant, d, e, id, ok)
    requires !Finishable(meant, d, id) ==> b in d.sidecars && e.raw == d.raw && e.sidecars == d.sidecars
    ensures Forward(env, meant, d, e, if ok then {id} else {}) && EntryOnly(env, d, e, id, ok)
  {
    PartIsForward(env, meant, d, e, id, b, ok);
    PartFinishable(env, d, e, id, b);
  }

  lemma ForwardEntry(env: Env, meant: Env, a: Disk, b: Disk, c: Disk, left: set<string>, id: string, ok: bool)
    requires Forward(env, meant, a, b, a.notes.Keys - left) && id in left && left <= a.notes.Keys
    requires Forward(env, meant, b, c, if ok then {id} else {})
    ensures Forward(env, meant, a, c, if ok then a.notes.Keys - (left - {id}) else {})
  {
    var settled := if ok then {id} else {};
    ForwardTwice(env, meant, a, b, c, a.notes.Keys - left, settled);
    ForwardFewer(env, meant, a, c, a.notes.Keys - left + settled, if ok then a.notes.Keys - (left - {id}) else {});
  }

  /** The file operations and transactions one recovery takes at most. */
  function Work(d: Disk): nat {
    4 * |d.notes| + (|d.notes| + |d.sidecars|)
  }

  /** A restart that survives `work` operations, none of which fails. */
  ghost predicate Undisturbed(restart: (nat, nat -> bool), work: nat) {
    restart.0 >= work && forall k :: !restart.1(k)
  }

  /** The payload of this staged sidecar, if it is one, is not in raw/. */
  predicate Droppable(env: Env, d: Disk, id: string, b: string) {
    b !in d.raw && (id in d.notes && d.notes[id].Decoded? ==>
      Valid(env, d.notes[id].c) && BaseOf(env, d.notes[id].c) == b)
  }

  /** Commit refuses a taken base path, an unsafe ID, a missing body and an ID that is already staged. */
  predicate Acceptable(env: Env, d: Disk, j: Job)
    requires Valid(env, j.c)
  {
    && BaseOf(env, j.c) !in d.raw && '/' !in j.c.id && '\\' !in j.c.id
    && j.body in d.bodies && j.c.id !in d.notes
  }

  class Machine {
    var disk: Disk
    var rows: map<string, Capture>
    var alive: bool
    var used: nat
    var dies: nat
    var fails: nat -> bool

    constructor (disk: Disk, rows: map<string, Capture>)
      ensures this.disk == disk && this.rows == rows && !alive
    {
      this.disk, this.rows, alive, used, dies, fails := disk, rows, false, 0, 0, n => false;
    }

    /** The next `n` operations will not fail, and the machine survives them. */
    ghost predicate Spare(n: nat) reads this {
      alive && used + n <= dies && forall k :: !fails(k)
    }

    /** Power comes back: files and rows are as they were. */
    method Restart(dies: nat, fails: nat -> bool)
      modifies this
      ensures alive && disk == old(disk) && rows == old(rows)
      ensures used == 0 && this.dies == dies && this.fails == fails
    {
      this.alive, this.used, this.dies, this.fails := true, 0, dies, fails;
    }

    /** Whether the next operation happens; a dead machine does nothing any more. */
    method Attempt() returns (ok: bool)
      modifies this`alive, this`used
      ensures ok ==> alive
      ensures alive ==> old(alive)
      ensures used <= old(used) + 1
      ensures old(Spare(1)) ==> ok
    {
      if !alive {
        return false;
      }
      if used == dies {
        alive := false;
        return false;
      }
      used := used + 1;
      return !fails(used);
    }

    /** One file operation: it may be impossible on this disk, fail, or be the last thing the machine does. */
    method Perform(op: Op) returns (ok: bool)
      modifies this`alive, this`used, this`disk
      ensures ok ==> alive && Possible(old(disk), op)
      ensures disk == if ok then Do(old(disk), op) else old(disk)
      ensures alive ==> old(alive)
      ensures used <= old(used) + 1
      ensures old(Spare(1)) ==> alive && (ok <==> Possible(old(disk), op))
    {
      ok := Attempt();
      if ok {
        ok := Possible(disk, op);
        disk := Do(disk, op);
      }
    }

    /** Operation `n` of a commit. */
    method CommitOp(env: Env, j: Job, n: nat, ghost good: bool) returns (ok: bool)
      requires Valid(env, j.c) && n < 8
      requires good ==> Ready(env, j) && Safe(env, disk) && Stage(env, disk, j, n)
      modifies this`alive, this`used, this`disk
      ensures disk == if ok then Do(old(disk), CommitOps(env, j)[n]) else old(disk)
      ensures good ==> Safe(env, disk) && Stage(env, disk, j, if ok then n + 1 else n)
      ensures ok ==> alive && Possible(old(disk), CommitOps(env, j)[n])
      ensures used <= old(used) + 1
      ensures old(Spare(1)) ==> alive && (ok <==> Possible(old(disk), CommitOps(env, j)[n]))
    {
      if good { CommitStep(env, disk, j, n); }
      ok := Perform(CommitOps(env, j)[n]);
    }

    /** Store.Commit, which sets the paths itself; `env` says what they are. Before the payload is in raw/ a failure
        removes the staged sidecar and leaves the payload to Abort; afterwards everything stays for recovery. */
    method Commit(env: Env, j: Job) returns (ok: bool)
      requires Valid(env, j.c)
      modifies this`alive, this`used, this`disk
      ensures Fresh(env, old(disk), j) ==> Safe(env, disk)
      ensures Fresh(env, old(disk), j) && ok ==> Completed(env, disk, j.c) && disk.raw[BaseOf(env, j.c)] == j.bytes
      ensures Fresh(env, old(disk), j) && BaseOf(env, j.c) in disk.raw ==> OnItsWay(env, disk, j.c)
      ensures BaseOf(env, j.c) in old(disk).raw ==> !ok && disk == old(disk)
      ensures old(Spare(8)) ==> (ok <==> Acceptable(env, old(disk), j))
    {
      ghost var good := Fresh(env, disk, j);
      if BaseOf(env, j.c) in disk.raw || '/' in j.c.id || '\\' in j.c.id {
        return false;
      }
      ok := StagePair(env, j, good);
      if ok {
        ok := CommitOp(env, j, 5, good);
      }
      if ok {
        ok := CommitOp(env, j, 6, good);
      }
      if ok {
        ok := CommitOp(env, j, 7, good);
      }
      if good && BaseOf(env, j.c) in disk.raw && BaseOf(env, j.c) in disk.sidecars {
        assert Paired(env, disk, BaseOf(env, j.c));
      }
    }

    /** Names the payload, stages its sidecar durably and moves the payload into raw/; cleans up on failure. */
    method StagePair(env: Env, j: Job, ghost good: bool) returns (ok: bool)
      requires Valid(env, j.c)
      requires good ==> Fresh(env, disk, j)
      modifies this`alive, this`used, this`disk
      ensures good ==> Safe(env, disk)
      ensures good && ok ==> Stage(env, disk, j, 5)
      ensures good && !ok ==> BaseOf(env, j.c) !in disk.raw
      ensures ok ==> alive && j.c.id in disk.notes && used <= old(used) + 5
      ensures old(Spare(5)) ==> (ok <==> j.body in old(disk).bodies && j.c.id !in old(disk).notes)
    {
      ok := CommitOp(env, j, 0, good);
      if !ok {
        if good { StagingOpSafe(env, disk, DropBody(j.body)); }
        var dropped := Perform(DropBody(j.body));
        return;
      }
      ok := StageNote(env, j, good);
      if !ok {
        if good { StagingOpSafe(env, disk, DropPayload(j.c.id)); }
        var dropped := Perform(DropPayload(j.c.id));
      }
    }

    /** Only a sidecar this commit created is removed again. */
    method StageNote(env: Env, j: Job, ghost good: bool) returns (ok: bool)
      requires Valid(env, j.c) && j.c.id in disk.payloads
      requires good ==> Ready(env, j) && Safe(env, disk) && Stage(env, disk, j, 1)
      modifies this`alive, this`used, this`disk
      ensures good ==> Safe(env, disk)
      ensures good && ok ==> Stage(env, disk, j, 5)
      ensures good && !ok ==> BaseOf(env, j.c) !in disk.raw
      ensures ok ==> alive && j.c.id in disk.notes && used <= old(used) + 4
      ensures old(Spare(4)) ==> (ok <==> j.c.id !in old(disk).notes)
    {
      ok := CommitOp(env, j, 1, good);
      if !ok {
        return;
      }
      ok := FillAndMove(env, j, good);
      if !ok {
        DropStagedNote(env, j.c.id, BaseOf(env, j.c), good);
      }
    }

    method FillAndMove(env: Env, j: Job, ghost good: bool) returns (ok: bool)
      requires Valid(env, j.c) && j.c.id in disk.payloads && j.c.id in disk.notes
      requires good ==> Ready(env, j) && Safe(env, disk) && Stage(env, disk, j, 2)
      modifies this`alive, this`used, this`disk
      ensures good ==> Safe(env, disk) && (if ok then Stage(env, disk, j, 5)
        else Droppable(env, disk, j.c.id, BaseOf(env, j.c)))
      ensures ok ==> alive && j.c.id in disk.notes && used <= old(used) + 3
      ensures old(Spare(3)) ==> ok
    {
      ok := CommitOp(env, j, 2, good);
      if ok {
        ok := CommitOp(env, j, 3, good);
      }
      if ok {
        ok := CommitOp(env, j, 4, good);
      }
    }

    /** The deferred removal of the staged sidecar while its payload is not in raw/. */
    method DropStagedNote(env: Env, id: string, b: string, ghost good: bool)
      requires good ==> Safe(env, disk) && Droppable(env, disk, id, b)
      modifies this`alive, this`used, this`disk
      ensures good ==> Safe(env, disk)
      ensures disk == old(disk) || disk == Do(old(disk), DropNote(id))
    {
      if good && id in disk.notes && disk.notes[id].Decoded? {
        NoteUnneeded(env, disk, id, b);
      } else if good {
        StagingSafe(env, disk, Do(disk, DropNote(id)));
      }
      var dropped := Perform(DropNote(id));
    }

    /** finishInterruptedCommits. */
    method FinishInterruptedCommits(env: Env, ghost meant: Env, ghost extra: nat) returns (corrupt: nat, ok: bool)
      requires Sound(env) && Sound(meant) && Agrees(env, meant, disk)
      modifies this`alive, this`used, this`disk
      ensures Forward(env, meant, old(disk), disk, if ok then old(disk).notes.Keys else {})
      ensures ok ==> NoneFinishable(env, disk)
      ensures NoValidNote(env, old(disk)) ==> disk == old(disk)
      ensures NoneFinishable(env, old(disk)) ==> disk.raw == old(disk).raw && disk.sidecars == old(disk).sidecars
      ensures ok ==> corrupt == |CorruptNotes(env, old(disk), old(disk).notes.Keys)|
      ensures old(Spare(4 * |disk.notes| + extra)) ==> ok && Spare(extra)
    {
      corrupt, ok := 0, true;
      ghost var first := disk;
      ghost var undisturbed := Spare(4 * |disk.notes| + extra);
      var left := disk.notes.Keys;
      ForwardNot(env, meant, disk, {});
      assert CorruptNotes(env, first, first.notes.Keys - left) == {};
      while left != {}
        invariant CountedSoFar(env, first, disk, left, corrupt)
        invariant Swept(env, first, disk, left) && Forward(env, meant, first, disk, first.notes.Keys - left)
        invariant undisturbed ==> ok && Spare(4 * |left| + extra)
        decreases |left|
      {
        var id :| id in left;
        var bad;
        ghost var before := disk;
        bad, ok := FinishEntry(env, meant, id);
        if ok { CountedEntry(env, first, before, disk, left, id, corrupt, bad); }
        corrupt := corrupt + bad;
        SweptEntry(env, first, before, disk, left, id, ok);
        ForwardEntry(env, meant, first, before, disk, left, id, ok);
        if !ok {
          return;
        }
        left := left - {id};
      }
      SweptAll(env, meant, first, disk, left);
      assert first.notes.Keys - left == first.notes.Keys;
    }

    /** One staged sidecar: finished, dropped as a duplicate, or counted corrupt and left. */
    method FinishEntry(env: Env, ghost meant: Env, id: string) returns (corrupt: nat, ok: bool)
      requires Sound(env) && Sound(meant) && Agrees(env, meant, disk) && id in disk.notes
      modifies this`alive, this`used, this`disk
      ensures Forward(env, meant, old(disk), disk, if ok then {id} else {})
      ensures EntryOnly(env, old(disk), disk, id, ok)
      ensures ok ==> corrupt == (if !Finishable(env, old(disk), id) && !Duplicate(env, old(disk), id) then 1 else 0)
      ensures ok ==> (corrupt == 0 <==>
        && old(disk).notes[id].Decoded? && env.check(old(disk).notes[id].c).Some? && old(disk).notes[id].c.id == id
        && var d, b, sha := old(disk), env.check(old(disk).notes[id].c).value, old(disk).notes[id].c.bodySha256;
           if b in d.raw then env.digest(d.raw[b]) == sha
           else b !in d.sidecars && id in d.payloads && env.digest(d.payloads[id]) == sha)
      ensures used <= old(used) + 4
      ensures old(Spare(4)) ==> ok && alive
    {
      corrupt, ok := 0, true;
      if !Finishable(env, disk, id) { EntryLeft(env, meant, disk, id); }
      if !ValidNote(env, disk, id) {
        return 1, true;
      }
      var c := disk.notes[id].c;
      var b := BaseOf(env, c);
      if b in disk.sidecars {
        if b in disk.raw && env.digest(disk.raw[b]) == c.bodySha256 {
          DropFinished(meant, id, b);
          EntryDone(env, meant, old(disk), disk, id, b, true);
        } else {
          corrupt := 1;
        }
        return;
      }
      if b !in disk.raw && id !in disk.payloads {
        return 1, true;
      }
      var hash := env.digest(if b in disk.raw then disk.raw[b] else disk.payloads[id]);
      if hash != c.bodySha256 {
        return 1, true;
      }
      ok := FinishOne(meant, id, b);
      EntryDone(env, meant, old(disk), disk, id, b, ok);
    }

    /** A staged sidecar that duplicates a finished commit goes away; failures of the removals are ignored. */
    method DropFinished(ghost meant: Env, id: string, b: string)
      requires ValidNote(meant, disk, id) && BaseOf(meant, disk.notes[id].c) == b && b in disk.sidecars
      modifies this`alive, this`used, this`disk
      ensures Safe(meant, old(disk)) ==> Safe(meant, disk)
      ensures FinishedPart(old(disk), disk, id, b) && disk.raw == old(disk).raw && disk.sidecars == old(disk).sidecars
      ensures used <= old(used) + 2
      ensures old(Spare(2)) ==> alive && id !in disk.notes && id !in disk.payloads
    {
      if Safe(meant, disk) { NoteUnneeded(meant, disk, id, b); }
      var a := Perform(DropNote(id));
      if Safe(meant, disk) { StagingOpSafe(meant, disk, DropPayload(id)); }
      var p := Perform(DropPayload(id));
    }

    /** Moves the payload if it is still staged, then its sidecar, syncing after each. */
    method FinishOne(ghost meant: Env, id: string, b: string) returns (ok: bool)
      requires Finishable(meant, disk, id) && BaseOf(meant, disk.notes[id].c) == b
      modifies this`alive, this`used, this`disk
      ensures Safe(meant, old(disk)) ==> Safe(meant, disk)
      ensures FinishedPart(old(disk), disk, id, b)
      ensures if id in disk.notes then Finishable(meant, disk, id) && disk.notes[id] == old(disk).notes[id]
              else Completed(meant, disk, old(disk).notes[id].c)
      ensures ok ==> id !in disk.notes
      ensures used <= old(used) + 4
      ensures old(Spare(4)) ==> ok && alive
    {
      ok := PlacePayload(meant, id, b);
      if ok {
        ok := PlaceNote(meant, id, b);
      }
    }

    method PlaceNote(ghost meant: Env, id: string, b: string) returns (ok: bool)
      requires Supports(meant, disk, id, b)
      modifies this`alive, this`used, this`disk
      ensures Safe(meant, old(disk)) ==> Safe(meant, disk)
      ensures disk == old(disk) || disk == Do(old(disk), MoveNote(id, b))
      ensures ok ==> id !in disk.notes
      ensures used <= old(used) + 2
      ensures old(Spare(2)) ==> ok && alive
    {
      if Safe(meant, disk) { MoveNoteSafe(meant, disk, id, b); }
      ok := Perform(MoveNote(id, b));
      if ok {
        ok := Perform(SyncRaw(b));
      }
    }

    method PlacePayload(ghost meant: Env, id: string, b: string) returns (ok: bool)
      requires Finishable(meant, disk, id) && BaseOf(meant, disk.notes[id].c) == b
      modifies this`alive, this`used, this`disk
      ensures Safe(meant, old(disk)) ==> Safe(meant, disk)
      ensures disk == old(disk) || (b !in old(disk).raw && disk == Do(old(disk), MovePayload(id, b)))
      ensures ok ==> Supports(meant, disk, id, b)
      ensures used <= old(used) + 2
      ensures old(Spare(2)) ==> ok && alive
    {
      ok := true;
      if b !in disk.raw {
        if Safe(meant, disk) { MovePayloadSafe(meant, disk, id, b); }
        ok := Perform(MovePayload(id, b));
        if ok {
          ok := Perform(SyncRaw(b));
        }
      }
    }

    /** Store.Reconcile: finish interrupted commits, then register every sidecar without a row. `env` is the check the
        program applies and `meant` the one that says what a capture is; where they are the same, a finished run leaves
        every base path complete or absent. */
    method Reconcile(env: Env, ghost meant: Env) returns (registered: nat, corrupt: nat, ok: bool)
      requires Sound(env) && Sound(meant) && Agrees(env, meant, disk)
      modifies this`alive, this`used, this`disk, this`rows
      ensures Forward(env, meant, old(disk), disk, if ok then old(disk).notes.Keys else {})
      ensures old(rows).Keys <= rows.Keys && (forall id :: id in old(rows) ==> rows[id] == old(rows)[id])
      ensures |rows| == |old(rows)| + registered
      ensures forall id :: id in rows && id !in old(rows) ==> FromSidecar(env, disk, id, rows[id])
      ensures ok && Safe(meant, old(disk)) ==> CompleteOrRefused(env, meant, disk, rows)
      ensures ok && meant == env && Safe(meant, old(disk)) ==> CompleteOrAbsent(env, disk, rows)
      ensures ok ==> NoneFinishable(env, disk) && AllRows(env, meant, disk, rows)
      ensures ok ==> Recovered(env, meant, old(disk), disk, rows)
      ensures old(Spare(Work(disk))) ==> ok && alive
      ensures NoneFinishable(env, old(disk)) && Registered(env, old(disk), old(rows)) ==>
        registered == 0 && disk.raw == old(disk).raw && disk.sidecars == old(disk).sidecars
      ensures NothingValid(env, old(disk)) ==> disk == old(disk) && rows == old(rows)
      ensures ok ==>
        corrupt == |CorruptNotes(env, old(disk), old(disk).notes.Keys)| + CorruptFiles(env, disk, rows)
    {
      registered := 0;
      corrupt, ok := FinishInterruptedCommits(env, meant, |disk.notes| + |disk.sidecars|);
      if !ok {
        return;
      }
      ghost var before, between, known := old(disk), disk, rows;
      registered, ok := RegisterSidecars(env);
      var files := CountCorrupt(env);
      corrupt := corrupt + files;
      if NoneFinishable(env, before) && Registered(env, before, known) {
        SamePairsRegistered(env, before, between, known);
      }
      if ok {
        PassEnds(env, meant, before, between, rows);
      } else {
        ForwardFewer(env, meant, before, between, before.notes.Keys, {});
      }
    }

    method RegisterSidecars(env: Env) returns (registered: nat, ok: bool)
      modifies this`rows, this`alive, this`used
      ensures old(Spare(|disk.sidecars|)) ==> ok && alive
      ensures old(rows).Keys <= rows.Keys && (forall id :: id in old(rows) ==> rows[id] == old(rows)[id])
      ensures |rows| == |old(rows)| + registered
      ensures forall id :: id in rows && id !in old(rows) ==> FromSidecar(env, disk, id, rows[id])
      ensures ok ==> Registered(env, disk, rows)
      ensures Registered(env, disk, old(rows)) ==> rows == old(rows)
    {
      registered, ok := 0, true;
      ghost var undisturbed := Spare(|disk.sidecars|);
      var left := disk.sidecars.Keys;
      while left != {}
        invariant left <= disk.sidecars.Keys
        invariant undisturbed ==> ok && Spare(|left|)
        invariant old(rows).Keys <= rows.Keys && (forall id :: id in old(rows) ==> rows[id] == old(rows)[id])
        invariant |rows| == |old(rows)| + registered
        invariant forall id :: id in rows && id !in old(rows) ==> FromSidecar(env, disk, id, rows[id])
        invariant forall b :: b in disk.sidecars && b !in left && Paired(env, disk, b) ==> disk.sidecars[b].c.id in rows
        invariant Registered(env, disk, old(rows)) ==> rows == old(rows)
        decreases |left|
      {
        var b :| b in left;
        left := left - {b};
        var added;
        added, ok := RegisterSidecar(env, b);
        registered := registered + added;
        if !ok {
          return;
        }
      }
    }

    /** What the walk over raw/ counts beside registering rows, and the second pass over the recorded captures. */
    method CountCorrupt(env: Env) returns (corrupt: nat)
      ensures corrupt == CorruptFiles(env, disk, rows)
    {
      var bad := CountBad(env);
      var lone := CountLone();
      var missing := CountMissing();
      corrupt := bad + lone + missing;
    }

    method CountBad(env: Env) returns (bad: nat)
      ensures bad == |BadSidecars(env, disk, disk.sidecars.Keys)|
    {
      bad := 0;
      var left := disk.sidecars.Keys;
      assert BadSidecars(env, disk, disk.sidecars.Keys - left) == {};
      while left != {}
        invariant left <= disk.sidecars.Keys && bad == |BadSidecars(env, disk, disk.sidecars.Keys - left)|
        decreases |left|
      {
        var b :| b in left;
        OneMoreSidecar(env, disk, left, b);
        left := left - {b};
        if disk.sidecars[b].Torn? || !Valid(env, disk.sidecars[b].c) || BaseOf(env, disk.sidecars[b].c) != b
           || b !in disk.raw || env.digest(disk.raw[b]) != disk.sidecars[b].c.bodySha256 {
          bad := bad + 1;
        }
      }
      assert disk.sidecars.Keys - left == disk.sidecars.Keys;
    }

    method CountLone() returns (lone: nat)
      ensures lone == |LonePayloads(disk, disk.raw.Keys)|
    {
      lone := 0;
      var left := disk.raw.Keys;
      assert LonePayloads(disk, disk.raw.Keys - left) == {};
      while left != {}
        invariant left <= disk.raw.Keys && lone == |LonePayloads(disk, disk.raw.Keys - left)|
        decreases |left|
      {
        var b :| b in left;
        OneMorePayload(disk, left, b);
        left := left - {b};
        if b !in disk.sidecars {
          lone := lone + 1;
        }
      }
      assert disk.raw.Keys - left == disk.raw.Keys;
    }

    method CountMissing() returns (missing: nat)
      ensures missing == |MissingRows(disk, rows, rows.Keys)|
    {
      missing := 0;
      var left := rows.Keys;
      assert MissingRows(disk, rows, rows.Keys - left) == {};
      while left != {}
        invariant left <= rows.Keys && missing == |MissingRows(disk, rows, rows.Keys - left)|
        decreases |left|
      {
        var id :| id in left;
        OneMoreRow(disk, rows, left, id);
        left := left - {id};
        if FilesMissing(disk, rows[id]) {
          missing := missing + 1;
        }
      }
      assert rows.Keys - left == rows.Keys;
    }

    /** One sidecar: passed over, known already, or registered. */
    method RegisterSidecar(env: Env, b: string) returns (added: nat, ok: bool)
      requires b in disk.sidecars
      modifies this`rows, this`alive, this`used
      ensures used <= old(used) + 1
      ensures old(Spare(1)) ==> ok && alive
      ensures alive ==> old(alive)
      ensures if Paired(env, disk, b) && disk.sidecars[b].c.id !in old(rows) && ok
        then added == 1 && rows == old(rows)[disk.sidecars[b].c.id := disk.sidecars[b].c]
        else added == 0 && rows == old(rows)
    {
      added, ok := 0, true;
      if disk.sidecars[b].Torn? || !Valid(env, disk.sidecars[b].c) || BaseOf(env, disk.sidecars[b].c) != b
         || b !in disk.raw || env.digest(disk.raw[b]) != disk.sidecars[b].c.bodySha256 {
        return;
      }
      var c := disk.sidecars[b].c;
      if c.id in rows {
        return;
      }
      ok := Attempt();
      if ok {
        rows := rows[c.id := c];
        added := 1;
      }
    }

    /** Any number of restarts, each dying or failing anywhere: raw/ stays safe and no capture is thrown back; once a
        restart finishes, a capture that was on its way is committed, with its row, exactly when the check accepts it;
        and a restart that is left undisturbed for `Work` operations of the first disk does finish. */
    method RecoverThroughCrashes(env: Env, ghost meant: Env, restarts: seq<(nat, nat -> bool)>) returns (ok: bool)
      requires Sound(env) && Sound(meant) && Agrees(env, meant, disk) && Safe(meant, disk)
      modifies this
      ensures Forward(env, meant, old(disk), disk, if ok then old(disk).notes.Keys else {}) && Safe(meant, disk)
      ensures ok ==> CompleteOrRefused(env, meant, disk, rows) && NoneFinishable(env, disk)
      ensures ok && meant == env ==> CompleteOrAbsent(env, disk, rows)
      ensures ok ==> Recovered(env, meant, old(disk), disk, rows)
      ensures |restarts| > 0 && Undisturbed(restarts[|restarts|-1], Work(old(disk))) ==> ok
      ensures old(rows).Keys <= rows.Keys && (forall id :: id in old(rows) ==> rows[id] == old(rows)[id])
    {
      ok := false;
      ghost var first := disk;
      ForwardNot(env, meant, disk, {});
      for n := 0 to |restarts|
        invariant Forward(env, meant, first, disk, {}) && Work(disk) <= Work(first)
        invariant ok ==> Finished(env, meant, first, disk, rows)
        invariant n > 0 && Undisturbed(restarts[n-1], Work(first)) ==> ok
        invariant old(rows).Keys <= rows.Keys && (forall id :: id in old(rows) ==> rows[id] == old(rows)[id])
      {
        Restart(restarts[n].0, restarts[n].1);
        ghost var before := disk;
        var registered, corrupt;
        registered, corrupt, ok := Reconcile(env, meant);
        ForwardAgain(env, meant, first, before, disk, ok);
      }
      if ok { FinishedIsRecovered(env, meant, first, disk, rows); }
    }

    /** RemoveExpiredStaging: removes the named staging files, keeps raw/ as it is, and keeps raw/ safe when no
        commit was left half done. */
    method RemoveExpiredStaging(ghost env: Env, bodies: set<string>, payloads: set<string>, notes: set<string>)
      modifies this`disk
      ensures disk == old(disk).(bodies := old(disk).bodies - bodies, payloads := old(disk).payloads - payloads,
                                 notes := old(disk).notes - notes)
      ensures Safe(env, old(disk)) ==> (Safe(env, disk) <==> SupportRemains(env, old(disk), notes))
      ensures Safe(env, old(disk)) && NoOrphans(old(disk)) ==> Safe(env, disk) && NoOrphans(disk)
    {
      ghost var before := disk;
      disk := disk.(bodies := disk.bodies - bodies, payloads := disk.payloads - payloads, notes := disk.notes - notes);
      if Safe(env, before) { NoteRemovalSafeExactly(env, before, disk, notes); }
    }
  }

  lemma OneMoreSidecar(env: Env, d: Disk, left: set<string>, b: string)
    requires b in left && left <= d.sidecars.Keys
    ensures |BadSidecars(env, d, d.sidecars.Keys - (left - {b}))|
      == |BadSidecars(env, d, d.sidecars.Keys - left)| + if Paired(env, d, b) then 0 else 1
  {
    var before := BadSidecars(env, d, d.sidecars.Keys - left);
    assert BadSidecars(env, d, d.sidecars.Keys - (left - {b})) == if Paired(env, d, b) then before else before + {b};
  }

  lemma OneMorePayload(d: Disk, left: set<string>, b: string)
    requires b in left && left <= d.raw.Keys
    ensures |LonePayloads(d, d.raw.Keys - (left - {b}))|
      == |LonePayloads(d, d.raw.Keys - left)| + if b in d.sidecars then 0 else 1
  {
    var before := LonePayloads(d, d.raw.Keys - left);
    assert LonePayloads(d, d.raw.Keys - (left - {b})) == if b in d.sidecars then before else before + {b};
  }

  lemma OneMoreRow(d: Disk, rows: map<string, Capture>, left: set<string>, id: string)
    requires id in left && left <= rows.Keys
    ensures |MissingRows(d, rows, rows.Keys - (left - {id}))|
      == |MissingRows(d, rows, rows.Keys - left)| + if FilesMissing(d, rows[id]) then 1 else 0
  {
    var before := MissingRows(d, rows, rows.Keys - left);
    assert MissingRows(d, rows, rows.Keys - (left - {id}))
      == if FilesMissing(d, rows[id]) then before + {id} else before;
  }

  lemma PassEnds(env: Env, meant: Env, d: Disk, e: Disk, rows: map<string, Capture>)
    requires Agrees(env, meant, d) && Forward(env, meant, d, e, d.notes.Keys)
    requires NoneFinishable(env, e) && Registered(env, e, rows)
    ensures AllRows(env, meant, e, rows) && Recovered(env, meant, d, e, rows)
    ensures Safe(meant, d) ==> CompleteOrRefused(env, meant, e, rows)
    ensures Safe(meant, d) && meant == env ==> CompleteOrAbsent(env, e, rows)
  {
    EverythingRegistered(env, meant, e, rows);
    SettledExactly(env, meant, d, e, rows);
    if meant == env && Safe(meant, e) { RefusedIsAbsent(env, e, rows); }
  }

  lemma SamePairsRegistered(env: Env, d: Disk, e: Disk, rows: map<string, Capture>)
    requires e.raw == d.raw && e.sidecars == d.sidecars && Registered(env, d, rows)
    ensures Registered(env, e, rows)
  {
    forall b | b in e.sidecars && Paired(env, e, b) ensures e.sidecars[b].c.id in rows {
      SamePair(env, e, d, b);
    }
  }

  /** Every payload without a sidecar has a staged sidecar outside `gone` that completes it. */
  ghost predicate SupportRemains(env: Env, d: Disk, gone: set<string>) {
    forall b :: b in d.raw && b !in d.sidecars ==> exists id :: id !in gone && Supports(env, d, id, b)
  }

  /** Removing staged sidecars keeps raw/ safe exactly when each half-committed payload keeps one that completes it. */
  lemma NoteRemovalSafeExactly(env: Env, d: Disk, e: Disk, gone: set<string>)
    requires Safe(env, d) && e.raw == d.raw && e.sidecars == d.sidecars && e.notes == d.notes - gone
    ensures Safe(env, e) <==> SupportRemains(env, d, gone)
  {
    forall b | b in e.sidecars ensures Paired(env, e, b) {
      SamePair(env, d, e, b);
    }
    forall id, b ensures Supports(env, e, id, b) <==> id !in gone && Supports(env, d, id, b) {
    }
  }

  /** A payload whose last support is removed is stranded: raw/ is not safe, and nothing recovery finishes is its. */
  lemma ExpiredNoteStrandsPayload(env: Env, d: Disk, e: Disk, gone: set<string>, b: string)
    requires b in d.raw && b !in d.sidecars && e.raw == d.raw && e.sidecars == d.sidecars && e.notes == d.notes - gone
    requires forall id :: Supports(env, d, id, b) ==> id in gone
    ensures !Safe(env, e) && forall id :: Finishable(env, e, id) ==> BaseOf(env, e.notes[id].c) != b
  {
    forall id ensures !Supports(env, e, id, b) {
      assert Supports(env, e, id, b) ==> Supports(env, d, id, b);
    }
  }
}
