/** Concrete runs: worlds in which everything is the work of Compact, and what happens in them. */
module LifecycleCases {
  import opened Prelude
  import opened Tables
  import opened Lifecycle
  import opened LifecycleSafety
  import opened LifecycleTheorems
  import opened LifecycleWitness
  import A = Artifact
  import C = Compact
  import D = Destinations
  import Tallies

  /** One capture of one stream with one destination, and all that a compaction of it alone depends on. */
  datatype Case = Case(env: A.Env, stream: C.Stream, body: A.Bytes, feed: A.Capture, row: Capture, d: D.Destination,
                       allow: bool, dir: string, tally: Tallies.Tally, now: int)

  function HashIn(env: A.Env, o: Object): string {
    match o
    case DataObject(data) => env.hash(data)
    case ManifestObject(_) => "manifest"
  }

  ghost function OriginOf(x: Case): Origin {
    Origin(x.env, C.Config([x.d], x.allow), x.stream, [x.feed])
  }

  ghost function PackageIn(x: Case): Package {
    var o, k := OriginOf(x), Revision(x.row.day, 1);
    PackageOf(o.env, o.cfg, o.stream, k, o.captures,
      C.ManifestOf(o.env, o.cfg, o.stream, k, o.captures, x.feed.url, x.tally, x.now), map[x.feed.id := x.body])
  }

  ghost function WayIn(x: Case): Way {
    Way(x.feed.id, x.body, x.row, PackageIn(x), x.d.id, x.dir, x.d.required, x.allow)
  }

  /** The world of the case: its package is the only one compaction can produce. */
  ghost function WorldIn(x: Case): World {
    var p, k := PackageIn(x), Revision(x.row.day, 1);
    World((j, q) => j == k && q == p, o => HashIn(x.env, o), x.env.digest, x.env.decode, (d, m) => Some(x.dir))
  }

  /** The payload reads back as it was committed. */
  ghost predicate Proper(x: Case) {
    && x.d.id != "" && x.row.rawPath.Live? && x.row.sha256 == x.feed.sha256
    && x.env.raw(x.feed.rawPath) == A.Content(x.body) && x.env.digest(x.body) == x.feed.sha256
  }

  lemma CaseCompacted(x: Case)
    requires Proper(x)
    ensures Compacted(WorldIn(x))
  {
    assert A.Readable(x.env, x.feed) && A.Included(x.env, [x.feed]) == A.Included(x.env, [x.feed][..0]) + [x.feed];
    assert MadeFrom(WorldIn(x), Revision(x.row.day, 1), PackageIn(x), OriginOf(x));
  }

  lemma OneQueued(d: D.Destination)
    ensures D.Queue([d]) == map[d.id := d.required]
  {
    assert [d][..0] == [];
    assert D.Queue([d]) == D.Queue([])[d.id := d.required];
  }

  lemma CaseShips(x: Case)
    requires Proper(x)
    ensures Shippable(WorldIn(x), WayIn(x))
  {
    var p, data := PackageIn(x), C.DataOf(x.env, x.stream.expectedKind, [x.feed]);
    assert p.manifest.files == [C.Entry(x.env, x.stream.expectedKind, [x.feed])];
    assert C.ArtifactName(x.env, data)[0] == 'd' && MANIFEST[0] == 'm';
    OneQueued(x.d);
    assert C.InputsOf([x.feed])[0].id == x.feed.id;
    assert p.inputs == [InputOf(WayIn(x))] && p.ids == [x.feed.id];
  }

  /** The central theorem speaks of states that are reached: for every feed, hash and decoder and every readable capture
      there is a world in which every package is the work of Compact and a run that comes to delete its payload. */
  lemma CentralTheoremApplies(x: Case, tick: Tick, now: int)
    requires Proper(x)
    ensures exists actions :: Compacted(WorldIn(x)) && CanClean(WorldIn(x), Run(WorldIn(x), actions), RemovePayload)
  {
    CaseCompacted(x);
    CaseShips(x);
    CompactedWorldOk(WorldIn(x));
    DeletionIsReachable(WorldIn(x), tick, WayIn(x), now);
  }
}
