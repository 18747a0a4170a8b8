/** Uploaded papers and the blobs they share (backend/app/services/paper_service.py,
    `upload_paper` and `delete_paper`; backend/app/core/storage.py). */
module Blobs {
  import opened Ordering
  import opened Text

  const CHECKSUM_CHARS: nat := 64

  // ------------------------------------------------------------- storage keys

  /** `papers/ab/cd/abcd...suffix`, for any characters. */
  function KeyOf<C>(root: seq<C>, slash: C, checksum: seq<C>, suffix: seq<C>): seq<C> {
    root + Upto(checksum, 2) + [slash] + Upto(checksum, 4)[|Upto(checksum, 2)|..] + [slash] + checksum + suffix
  }

  function LastDot(name: string): (i: int)
    ensures -1 <= i < |name|
  {
    if name == "" then -1 else if name[|name| - 1] == '.' then |name| - 1 else LastDot(name[..|name| - 1])
  }

  /** `Path(filename).suffix.lower() or ".bin"`. */
  function Suffix(name: string): string {
    var i := LastDot(name);
    if 0 < i < |name| - 1 then Lower(name[i..]) else ".bin"
  }

  function BuildStorageKey(checksum: string, filename: string): string {
    KeyOf("papers/", '/', checksum, Suffix(filename))
  }

  lemma KeyParts<C>(root: seq<C>, slash: C, checksum: seq<C>, suffix: seq<C>)
    requires |checksum| == CHECKSUM_CHARS
    ensures var key := KeyOf(root, slash, checksum, suffix);
            && |key| >= |root| + 6 + CHECKSUM_CHARS
            && key[|root| + 6..|root| + 6 + CHECKSUM_CHARS] == checksum && key[|root| + 6 + CHECKSUM_CHARS..] == suffix
  {
    var head := root + checksum[..2] + [slash] + checksum[..4][2..] + [slash];
    assert |head| == |root| + 6;
    assert KeyOf(root, slash, checksum, suffix) == head + (checksum + suffix);
  }

  /** A storage key determines the checksum and the suffix it was built from. */
  lemma KeyDetermines<C>(root: seq<C>, slash: C, a: seq<C>, s: seq<C>, b: seq<C>, t: seq<C>)
    requires |a| == |b| == CHECKSUM_CHARS
    ensures KeyOf(root, slash, a, s) == KeyOf(root, slash, b, t) <==> a == b && s == t
  {
    KeyParts(root, slash, a, s);
    KeyParts(root, slash, b, t);
  }

  // -------------------------------------------------------------- the service

  datatype PaperRow<Id, C> = PaperRow(workspaceId: Id, checksum: seq<C>, storageKey: seq<C>)

  /** The paper rows by id, the next id, and the stored blobs by key. */
  datatype World<Id, B, C(==)> = World(papers: map<nat, PaperRow<Id, C>>, nextId: nat, blobs: map<seq<C>, B>)

  /** How bytes are addressed. */
  datatype Addressing<!B, !C> = Addressing(hash: B -> seq<C>, key: (seq<C>, seq<C>) -> seq<C>)

  ghost predicate Sound<B(!new), C(!new)>(k: Addressing<B, C>) {
    && (forall b :: |k.hash(b)| == CHECKSUM_CHARS)
    && (forall a, s, b, t :: |a| == CHECKSUM_CHARS && |b| == CHECKSUM_CHARS && k.key(a, s) == k.key(b, t) ==>
          a == b && s == t)
  }

  datatype Outcome = Created(id: nat) | Rejected | Conflict | Deleted | NotFound

  /** An upload, with whether it passes validation; a deletion, with whether the caller may see the paper. */
  datatype Request<Id, B, C> =
    | Upload(workspaceId: Id, bytes: B, suffix: seq<C>, acceptable: bool)
    | Delete(paperId: nat, visible: bool)

  predicate InWorkspace<Id(==), C(==)>(papers: map<nat, PaperRow<Id, C>>, workspaceId: Id, checksum: seq<C>) {
    exists p :: p in papers && papers[p].workspaceId == workspaceId && papers[p].checksum == checksum
  }

  predicate Referenced<Id, C(==)>(papers: map<nat, PaperRow<Id, C>>, checksum: seq<C>) {
    exists p :: p in papers && papers[p].checksum == checksum
  }

  function AfterUpload<Id(==), B, C(==)>(w: World<Id, B, C>, workspaceId: Id, bytes: B, suffix: seq<C>,
                                         acceptable: bool, k: Addressing<B, C>)
    : (World<Id, B, C>, Outcome)
  {
    if !acceptable then (w, Rejected)
    else
      var checksum := k.hash(bytes);
      var storageKey := k.key(checksum, suffix);
      var blobs := if storageKey in w.blobs then w.blobs else w.blobs[storageKey := bytes];
      if InWorkspace(w.papers, workspaceId, checksum) then (World(w.papers, w.nextId, blobs), Conflict)
      else (World(w.papers[w.nextId := PaperRow(workspaceId, checksum, storageKey)], w.nextId + 1, blobs),
            Created(w.nextId))
  }

  function AfterDelete<Id(==), B, C(==)>(w: World<Id, B, C>, paperId: nat, visible: bool): (World<Id, B, C>, Outcome) {
    if paperId !in w.papers || !visible then (w, NotFound)
    else
      var paper := w.papers[paperId];
      var papers := w.papers - {paperId};
      (World(papers, w.nextId,
             if Referenced(papers, paper.checksum) then w.blobs else w.blobs - {paper.storageKey}), Deleted)
  }

  function After<Id(==), B, C(==)>(w: World<Id, B, C>, r: Request<Id, B, C>, k: Addressing<B, C>): World<Id, B, C> {
    match r
    case Upload(workspaceId, bytes, suffix, acceptable) => AfterUpload(w, workspaceId, bytes, suffix, acceptable, k).0
    case Delete(paperId, visible) => AfterDelete(w, paperId, visible).0
  }

  function History<Id(==), B, C(==)>(requests: seq<Request<Id, B, C>>, k: Addressing<B, C>): World<Id, B, C> {
    if requests == [] then World(map[], 0, map[])
    else After(History(requests[..|requests| - 1], k), requests[|requests| - 1], k)
  }

  /** The database table and the blob store, updated in steps. */
  class PaperService<Id(==), B, C(==)> {
    const k: Addressing<B, C>
    var papers: map<nat, PaperRow<Id, C>>
    var nextId: nat
    var blobs: map<seq<C>, B>

    constructor (k: Addressing<B, C>)
      ensures this.k == k && Now() == World(map[], 0, map[])
    {
      this.k, papers, nextId, blobs := k, map[], 0, map[];
    }

    function Now(): World<Id, B, C>
      reads this
    {
      World(papers, nextId, blobs)
    }

    /** Save the blob unless it is there, add the row, commit; a row of the same
        workspace and checksum makes the commit fail and only the row is undone. */
    method UploadPaper(workspaceId: Id, bytes: B, suffix: seq<C>, acceptable: bool) returns (outcome: Outcome)
      modifies this
      ensures (Now(), outcome) == AfterUpload(old(Now()), workspaceId, bytes, suffix, acceptable, k)
    {
      if !acceptable { return Rejected; }
      var checksum := k.hash(bytes);
      var storageKey := k.key(checksum, suffix);
      if storageKey !in blobs {
        blobs := blobs[storageKey := bytes];
      }
      if InWorkspace(papers, workspaceId, checksum) { return Conflict; }
      papers := papers[nextId := PaperRow(workspaceId, checksum, storageKey)];
      nextId := nextId + 1;
      return Created(nextId - 1);
    }

    /** Delete the row; delete its blob once no row anywhere has its checksum. */
    method DeletePaper(paperId: nat, visible: bool) returns (outcome: Outcome)
      modifies this
      ensures (Now(), outcome) == AfterDelete(old(Now()), paperId, visible)
    {
      if paperId !in papers || !visible { return NotFound; }
      var paper := papers[paperId];
      papers := papers - {paperId};
      if !Referenced(papers, paper.checksum) {
        blobs := blobs - {paper.storageKey};
      }
      return Deleted;
    }
  }

  // ---------------------------------------------------------------- invariants

  /** A blob is stored under a key built from its own checksum. */
  ghost predicate Addressed<Id, B(!new), C(!new)>(w: World<Id, B, C>, k: Addressing<B, C>) {
    forall key :: key in w.blobs ==> exists s :: key == k.key(k.hash(w.blobs[key]), s)
  }

  /** The blob of every paper is there, with the bytes' checksum the row records. */
  ghost predicate Backed<Id, B(!new), C(!new)>(w: World<Id, B, C>, k: Addressing<B, C>) {
    forall p :: p in w.papers ==>
      && p < w.nextId && |w.papers[p].checksum| == CHECKSUM_CHARS
      && w.papers[p].storageKey in w.blobs && k.hash(w.blobs[w.papers[p].storageKey]) == w.papers[p].checksum
      && exists s :: w.papers[p].storageKey == k.key(w.papers[p].checksum, s)
  }

  /** No blob but those of papers. */
  ghost predicate NoOrphans<Id, B, C(!new)>(w: World<Id, B, C>) {
    forall key :: key in w.blobs ==> exists p :: p in w.papers && w.papers[p].storageKey == key
  }

  lemma UploadKeepsBacked<Id, B(!new), C(!new)>(w: World<Id, B, C>, workspaceId: Id, bytes: B, suffix: seq<C>,
                                                acceptable: bool, k: Addressing<B, C>)
    requires Sound(k) && Addressed(w, k) && Backed(w, k)
    ensures var w' := AfterUpload(w, workspaceId, bytes, suffix, acceptable, k).0; Addressed(w', k) && Backed(w', k)
  {
    var key := k.key(k.hash(bytes), suffix);
    if key in w.blobs {
      var s :| key == k.key(k.hash(w.blobs[key]), s);
    }
  }

  lemma DeleteKeepsBacked<Id, B(!new), C(!new)>(w: World<Id, B, C>, paperId: nat, visible: bool, k: Addressing<B, C>)
    requires Sound(k) && Addressed(w, k) && Backed(w, k)
    ensures var w' := AfterDelete(w, paperId, visible).0; Addressed(w', k) && Backed(w', k)
  {
    if paperId in w.papers && visible {
      var paper, papers := w.papers[paperId], w.papers - {paperId};
      forall p | p in papers && papers[p].storageKey == paper.storageKey ensures papers[p].checksum == paper.checksum {
        assert w.papers[p].storageKey == paper.storageKey;
      }
    }
  }

  /** Over every run of uploads, conflicts and deletions the blob of every live paper
      exists and holds bytes with its checksum. */
  lemma {:induction false} BlobsAreSafe<Id, B(!new), C(!new)>(requests: seq<Request<Id, B, C>>, k: Addressing<B, C>)
    requires Sound(k)
    ensures Addressed(History(requests, k), k) && Backed(History(requests, k), k)
  {
    if requests != [] {
      var rest, last := requests[..|requests| - 1], requests[|requests| - 1];
      BlobsAreSafe(rest, k);
      match last
      case Upload(workspaceId, bytes, suffix, acceptable) =>
        UploadKeepsBacked(History(rest, k), workspaceId, bytes, suffix, acceptable, k);
      case Delete(paperId, visible) => DeleteKeepsBacked(History(rest, k), paperId, visible, k);
    }
  }

  // -------------------------------------------------------------------- orphans

  /** The file name suffix depends on the bytes only. */
  ghost predicate OneSuffix<Id, B, C>(requests: seq<Request<Id, B, C>>, suffixOf: seq<C> -> seq<C>, k: Addressing<B, C>)
  {
    forall i :: 0 <= i < |requests| && requests[i].Upload? ==> requests[i].suffix == suffixOf(k.hash(requests[i].bytes))
  }

  /** Every paper's key is the one its checksum has. */
  ghost predicate Canonical<Id, B, C>(w: World<Id, B, C>, suffixOf: seq<C> -> seq<C>, k: Addressing<B, C>) {
    forall p :: p in w.papers ==> w.papers[p].storageKey == k.key(w.papers[p].checksum, suffixOf(w.papers[p].checksum))
  }

  lemma UploadLeavesNoOrphan<Id, B, C(!new)>(w: World<Id, B, C>, workspaceId: Id, bytes: B, suffix: seq<C>,
                                             acceptable: bool, suffixOf: seq<C> -> seq<C>, k: Addressing<B, C>)
    requires NoOrphans(w) && Canonical(w, suffixOf, k) && suffix == suffixOf(k.hash(bytes))
             && forall p :: p in w.papers ==> p < w.nextId
    ensures var w' := AfterUpload(w, workspaceId, bytes, suffix, acceptable, k).0;
            NoOrphans(w') && Canonical(w', suffixOf, k)
  {
    var w' := AfterUpload(w, workspaceId, bytes, suffix, acceptable, k).0;
    forall key | key in w'.blobs ensures exists p :: p in w'.papers && w'.papers[p].storageKey == key {
      if key in w.blobs {
        var p :| p in w.papers && w.papers[p].storageKey == key;
        assert w'.papers[p].storageKey == key;
      } else if InWorkspace(w.papers, workspaceId, k.hash(bytes)) {
        var p :| p in w.papers && w.papers[p].workspaceId == workspaceId && w.papers[p].checksum == k.hash(bytes);
        assert w'.papers[p].storageKey == key;
      } else {
        assert w'.papers[w.nextId].storageKey == key;
      }
    }
  }

  lemma DeleteLeavesNoOrphan<Id, B, C(!new)>(w: World<Id, B, C>, paperId: nat, visible: bool,
                                             suffixOf: seq<C> -> seq<C>, k: Addressing<B, C>)
    requires NoOrphans(w) && Canonical(w, suffixOf, k)
    ensures var w' := AfterDelete(w, paperId, visible).0; NoOrphans(w') && Canonical(w', suffixOf, k)
  {
    var w' := AfterDelete(w, paperId, visible).0;
    forall key | key in w'.blobs ensures exists p :: p in w'.papers && w'.papers[p].storageKey == key {
      var p :| p in w.papers && w.papers[p].storageKey == key;
      if p !in w'.papers {
        var q :| q in w'.papers && w'.papers[q].checksum == w.papers[p].checksum;
        assert w.papers[q].storageKey == key;
      }
    }
  }

  /** If all uploads of the same bytes use one suffix, the blobs are exactly those of the live papers. */
  lemma {:induction false} OneSuffixNoOrphans<Id, B(!new), C(!new)>(requests: seq<Request<Id, B, C>>,
                                                                    suffixOf: seq<C> -> seq<C>, k: Addressing<B, C>)
    requires Sound(k) && OneSuffix(requests, suffixOf, k)
    ensures NoOrphans(History(requests, k)) && Canonical(History(requests, k), suffixOf, k)
    ensures forall key :: key in History(requests, k).blobs <==>
              exists p :: p in History(requests, k).papers && History(requests, k).papers[p].storageKey == key
  {
    BlobsAreSafe(requests, k);
    if requests != [] {
      var rest, last := requests[..|requests| - 1], requests[|requests| - 1];
      BlobsAreSafe(rest, k);
      OneSuffixNoOrphans(rest, suffixOf, k);
      match last
      case Upload(workspaceId, bytes, suffix, acceptable) =>
        UploadLeavesNoOrphan(History(rest, k), workspaceId, bytes, suffix, acceptable, suffixOf, k);
      case Delete(paperId, visible) => DeleteLeavesNoOrphan(History(rest, k), paperId, visible, suffixOf, k);
    }
  }

  ghost predicate KeyInUse<Id, C(!new)>(papers: map<nat, PaperRow<Id, C>>, key: seq<C>) {
    exists p :: p in papers && papers[p].storageKey == key
  }

  lemma RemainsInUse<Id, B, C(!new)>(w: World<Id, B, C>, paperId: nat)
    requires NoOrphans(w) && paperId in w.papers && KeyInUse(w.papers - {paperId}, w.papers[paperId].storageKey)
    ensures NoOrphans(World(w.papers - {paperId}, w.nextId, w.blobs))
  {
    var papers := w.papers - {paperId};
    forall key | key in w.blobs ensures exists p :: p in papers && papers[p].storageKey == key {
      var p :| p in w.papers && w.papers[p].storageKey == key;
      assert p != paperId ==> p in papers;
    }
  }

  lemma RemovedWithIt<Id, B, C(!new)>(w: World<Id, B, C>, paperId: nat)
    requires NoOrphans(w) && paperId in w.papers
    ensures NoOrphans(World(w.papers - {paperId}, w.nextId, w.blobs - {w.papers[paperId].storageKey}))
  {
    var papers := w.papers - {paperId};
    forall key | key in w.blobs - {w.papers[paperId].storageKey}
      ensures exists p :: p in papers && papers[p].storageKey == key
    {
      var p :| p in w.papers && w.papers[p].storageKey == key;
      assert p in papers;
    }
  }

  /** Exactly when a deletion orphans a blob: some other paper has the checksum, so the
      blob stays, but none has the key. */
  lemma DeleteOrphansIff<Id, B(!new), C(!new)>(w: World<Id, B, C>, paperId: nat, k: Addressing<B, C>)
    requires Backed(w, k) && NoOrphans(w) && paperId in w.papers
    ensures var paper, papers := w.papers[paperId], w.papers - {paperId};
            NoOrphans(AfterDelete(w, paperId, true).0) <==>
              (Referenced(papers, paper.checksum) ==> KeyInUse(papers, paper.storageKey))
  {
    var paper, papers := w.papers[paperId], w.papers - {paperId};
    if !Referenced(papers, paper.checksum) {
      RemovedWithIt(w, paperId);
    } else if KeyInUse(papers, paper.storageKey) {
      RemainsInUse(w, paperId);
    } else {
      assert paper.storageKey in AfterDelete(w, paperId, true).0.blobs;
    }
  }

  /** Exactly when a conflicting upload orphans a blob: its key is not stored yet. */
  lemma ConflictOrphansIff<Id, B(!new), C(!new)>(w: World<Id, B, C>, workspaceId: Id, bytes: B, suffix: seq<C>,
                                                 k: Addressing<B, C>)
    requires Backed(w, k) && NoOrphans(w) && InWorkspace(w.papers, workspaceId, k.hash(bytes))
    ensures NoOrphans(AfterUpload(w, workspaceId, bytes, suffix, true, k).0) <==>
              k.key(k.hash(bytes), suffix) in w.blobs
  {
    var key := k.key(k.hash(bytes), suffix);
    var w' := AfterUpload(w, workspaceId, bytes, suffix, true, k).0;
    assert key in w'.blobs && w'.papers == w.papers;
  }

  // --------------------------------------------------------- the keys as built

  function Addresses<B>(hash: B -> string): Addressing<B, char> {
    Addressing(hash, (checksum: string, suffix: string) => KeyOf("papers/", '/', checksum, suffix))
  }

  /** The storage keys the service builds determine the checksum, so all of the above applies to them. */
  lemma KeysAreSound<B(!new)>(hash: B -> string, bytes: B, filename: string)
    requires forall b :: |hash(b)| == CHECKSUM_CHARS
    ensures Sound(Addresses(hash))
    ensures Addresses(hash).key(hash(bytes), Suffix(filename)) == BuildStorageKey(hash(bytes), filename)
  {
    forall a: string, s: string, b: string, t: string
      | |a| == CHECKSUM_CHARS && |b| == CHECKSUM_CHARS && Addresses(hash).key(a, s) == Addresses(hash).key(b, t)
      ensures a == b && s == t
    {
      KeyDetermines("papers/", '/', a, s, b, t);
    }
  }

  /** Two suffixes for the same bytes are enough for an orphan: uploaded to two
      workspaces under different names and deleted from both, one blob stays for ever. */
  lemma TwoSuffixesOrphan<Id, B(!new), C(!new)>(first: Id, second: Id, bytes: B, s: seq<C>, t: seq<C>,
                                                k: Addressing<B, C>)
    requires Sound(k) && first != second && s != t
    ensures var w :=
              History([Upload(first, bytes, s, true), Upload(second, bytes, t, true), Delete(0, true),
                       Delete(1, true)], k);
            w.papers == map[] && k.key(k.hash(bytes), s) in w.blobs
  {
    var r: seq<Request<Id, B, C>> :=
      [Upload(first, bytes, s, true), Upload(second, bytes, t, true), Delete(0, true), Delete(1, true)];
    var w0: World<Id, B, C> := World(map[], 0, map[]);
    var w1 := After(w0, r[0], k);
    var w2 := After(w1, r[1], k);
    var w3 := After(w2, r[2], k);
    HistoryOfFour(r, k);
    assert !InWorkspace(w1.papers, second, k.hash(bytes));
    assert w2.papers.Keys == {0, 1} && w3.papers.Keys == {1};
    assert w3.papers[1].checksum == k.hash(bytes);
    assert After(w3, r[3], k).papers == map[];
  }

  lemma HistoryOfFour<Id, B, C>(r: seq<Request<Id, B, C>>, k: Addressing<B, C>)
    requires |r| == 4
    ensures History(r, k) == After(After(After(After(World(map[], 0, map[]), r[0], k), r[1], k), r[2], k), r[3], k)
  {
    assert r[..3][..2] == r[..2] && r[..2][..1] == r[..1] && r[..1][..0] == [];
    assert History(r[..1], k) == After(World(map[], 0, map[]), r[0], k);
    assert History(r[..2], k) == After(History(r[..1], k), r[1], k);
    assert History(r[..3], k) == After(History(r[..2], k), r[2], k);
  }
}
