/**
 * The content-addressed source store, artifacts/source.py.
 *
 * Store.Put is one undisturbed upload.  The transition system interleaves the file-system steps of
 * any number of uploads and lets each of them crash between any two steps.  The digest is a
 * parameter; where bytes and not only digests matter, the payloads of the run must not collide.
 */
module SourceStore {
  import opened Results
  import opened Texts

  type Bytes = seq<bv8>

  // The finished objects by key and the unfinished temporary files by their unique suffix.
  datatype Files = Files(objects: map<string, Bytes>, temporary: map<string, Bytes>)

  datatype Stored = Stored(key: string, size: nat)

  datatype PutError = HashMismatch | BadIdentity | CorruptObject | ReplaceFailed | VerifyFailed

  function HashPrefix(hash: string): string {
    if |hash| >= 2 then hash[..2] else hash
  }

  function KeyHead(projectId: nat): string {
    "projects/" + Decimal(projectId)
  }

  function KeyTail(hash: string): string {
    ("/source/sha256/" + HashPrefix(hash) + "/") + hash + ".json"
  }

  function ObjectKey(projectId: int, hash: string): Option<string> {
    if projectId <= 0 || |hash| != 64 then None else Some(KeyHead(projectId) + KeyTail(hash))
  }

  lemma {:induction false} TailHoldsHash(hash: string)
    requires |hash| == 64
    ensures |KeyTail(hash)| == 87 && KeyTail(hash)[18..82] == hash
  {
    var front := "/source/sha256/" + HashPrefix(hash) + "/";
    assert |front| == 18;
    assert (front + hash + ".json")[18..82] == hash;
  }

  lemma {:induction false} HeadHoldsProject(p: nat, q: nat)
    requires KeyHead(p) == KeyHead(q)
    ensures p == q
  {
    assert KeyHead(p)[9..] == Decimal(p) && KeyHead(q)[9..] == Decimal(q);
    DecimalInjective(p, q);
  }

  lemma {:induction false} SplitAtTail(a: string, t: string, b: string, u: string)
    requires a + t == b + u && |t| == |u|
    ensures a == b && t == u
  {
    assert (a + t)[..|a|] == a && (b + u)[..|b|] == b;
    assert (a + t)[|a|..] == t && (b + u)[|b|..] == u;
  }

  /** Different identities have different keys. */
  lemma {:induction false} KeysAreInjective(p: int, hash: string, q: int, other: string)
    requires ObjectKey(p, hash).Some? && ObjectKey(p, hash) == ObjectKey(q, other)
    ensures p == q && hash == other
  {
    TailHoldsHash(hash);
    TailHoldsHash(other);
    SplitAtTail(KeyHead(p), KeyTail(hash), KeyHead(q), KeyTail(other));
    HeadHoldsProject(p, q);
  }

  function Read(files: Files, hash: Bytes -> string, key: string, sourceHash: string, size: nat): Option<Bytes> {
    if key !in files.objects then None
    else
      var payload := files.objects[key];
      if |payload| != size || hash(payload) != sourceHash then None else Some(payload)
  }

  // What an undisturbed upload that fails has met.
  function WhyNot(objects: map<string, Bytes>, hash: Bytes -> string, projectId: int, payload: Bytes, sourceHash: string): PutError {
    var key := ObjectKey(projectId, sourceHash);
    if hash(payload) != sourceHash then HashMismatch
    else if key.None? then BadIdentity
    else if key.value in objects then CorruptObject
    else ReplaceFailed
  }

  class Store {
    var objects: map<string, Bytes>
    var temporary: map<string, Bytes>

    ghost function View(): Files
      reads this
    {
      Files(objects, temporary)
    }

    constructor ()
      ensures View() == Files(map[], map[])
    {
      objects, temporary := map[], map[];
    }

    /**
     * Stores the payload under its own digest unless it is there already.  A failed replacement is
     * forgiven when another upload has put the object there meanwhile; no temporary file is left.
     */
    method Put(hash: Bytes -> string, projectId: int, payload: Bytes, sourceHash: string, token: string, replaceFails: bool)
      returns (r: Result<Stored, PutError>)
      requires token !in temporary
      modifies this
      ensures temporary == old(temporary)
      ensures r.Ok? ==>
                && hash(payload) == sourceHash && ObjectKey(projectId, sourceHash) == Some(r.value.key)
                && r.value.key in objects && hash(objects[r.value.key]) == sourceHash
                && r.value.size == |objects[r.value.key]|
      ensures objects == if r.Ok? && r.value.key !in old(objects) then old(objects)[r.value.key := payload] else old(objects)
      ensures r.Err? ==> r.error == WhyNot(old(objects), hash, projectId, payload, sourceHash)
      ensures r.Ok? <==>
                && hash(payload) == sourceHash && ObjectKey(projectId, sourceHash).Some?
                && var key := ObjectKey(projectId, sourceHash).value;
                   if key in old(objects) then hash(old(objects)[key]) == sourceHash else !replaceFails
    {
      if hash(payload) != sourceHash { return Err(HashMismatch); }
      var named := ObjectKey(projectId, sourceHash);
      if named.None? { return Err(BadIdentity); }
      var key := named.value;
      if key in objects {
        var existing := objects[key];
        return if hash(existing) != sourceHash then Err(CorruptObject) else Ok(Stored(key, |existing|));
      }
      temporary := temporary[token := payload];
      if !replaceFails {
        objects := objects[key := temporary[token]];
        temporary := temporary - {token};
      } else if key !in objects {
        temporary := temporary - {token};
        return Err(ReplaceFailed);
      }
      var stored := objects[key];
      if hash(stored) != sourceHash {
        return Err(VerifyFailed);
      }
      return Ok(Stored(key, |payload|));
    }
  }

  // ---------------------------------------------------------------- concurrent uploads

  datatype Upload = Upload(projectId: int, payload: Bytes, sourceHash: string, token: string)

  // Where an upload stands; the key is known once the digest was checked.
  datatype Phase =
    | Checking
    | Looking(key: string)
    | Opening(key: string)
    | Writing(key: string)
    | Replacing(key: string)
    | Verifying(key: string)
    | Cleaning(result: Result<Stored, PutError>)
    | Ended(result: Result<Stored, PutError>)

  // One file-system step of an upload.  `ok` says whether a replacement succeeds, `written` how much
  // of a write has reached the file when it is interrupted.
  function Step(u: Upload, phase: Phase, files: Files, hash: Bytes -> string, ok: bool): (Phase, Files) {
    match phase
    case Checking =>
      var key := ObjectKey(u.projectId, u.sourceHash);
      (if hash(u.payload) != u.sourceHash then Ended(Err(HashMismatch))
       else if key.None? then Ended(Err(BadIdentity))
       else Looking(key.value), files)
    case Looking(key) =>
      (if key !in files.objects then Opening(key)
       else if hash(files.objects[key]) != u.sourceHash then Ended(Err(CorruptObject))
       else Ended(Ok(Stored(key, |files.objects[key]|))), files)
    case Opening(key) => (Writing(key), files.(temporary := files.temporary[u.token := []]))
    case Writing(key) => (Replacing(key), files.(temporary := files.temporary[u.token := u.payload]))
    case Replacing(key) =>
      if ok && u.token in files.temporary then
        (Verifying(key), Files(files.objects[key := files.temporary[u.token]], files.temporary - {u.token}))
      else (if key in files.objects then Verifying(key) else Cleaning(Err(ReplaceFailed)), files)
    case Verifying(key) =>
      (Cleaning(if key !in files.objects || hash(files.objects[key]) != u.sourceHash then Err(VerifyFailed)
                else Ok(Stored(key, |u.payload|))), files)
    case Cleaning(result) => (Ended(result), files.(temporary := files.temporary - {u.token}))
    case Ended(_) => (phase, files)
  }

  datatype State = State(files: Files, uploads: map<nat, Upload>, phases: map<nat, Phase>, tokens: set<string>)

  // An upload starts, takes a step, is interrupted with part of its write on disk, or is gone.
  datatype Move = Start(id: nat, upload: Upload) | Go(id: nat, ok: bool) | Tear(id: nat, written: nat) | Crash(id: nat)

  const EMPTY := State(Files(map[], map[]), map[], map[], {})

  function Apply(s: State, hash: Bytes -> string, move: Move): State {
    match move
    case Start(id, upload) =>
      if id in s.uploads || upload.token in s.tokens then s
      else State(s.files, s.uploads[id := upload], s.phases[id := Checking], s.tokens + {upload.token})
    case Go(id, ok) =>
      if id !in s.phases || id !in s.uploads then s
      else
        var (phase, files) := Step(s.uploads[id], s.phases[id], s.files, hash, ok);
        s.(files := files, phases := s.phases[id := phase])
    case Tear(id, written) =>
      if id in s.phases && id in s.uploads && s.phases[id].Writing? && written <= |s.uploads[id].payload| then
        s.(files := s.files.(temporary := s.files.temporary[s.uploads[id].token := s.uploads[id].payload[..written]]),
           phases := s.phases - {id})
      else s
    case Crash(id) => s.(phases := s.phases - {id})
  }

  function After(hash: Bytes -> string, moves: seq<Move>): State
    decreases |moves|
  {
    if moves == [] then EMPTY else Apply(After(hash, moves[..|moves| - 1]), hash, moves[|moves| - 1])
  }

  // ---- the invariant

  function KeyOf(phase: Phase): Option<string> {
    match phase
    case Looking(key) => Some(key)
    case Opening(key) => Some(key)
    case Writing(key) => Some(key)
    case Replacing(key) => Some(key)
    case Verifying(key) => Some(key)
    case _ => None
  }

  // What an upload knows: its own digest and key, and its own file while it replaces.
  ghost predicate UploadSound(s: State, hash: Bytes -> string, id: nat)
    requires id in s.phases && id in s.uploads
  {
    var u, phase := s.uploads[id], s.phases[id];
    && u.token in s.tokens
    && (KeyOf(phase).Some? ==> KeyOf(phase) == ObjectKey(u.projectId, u.sourceHash) && hash(u.payload) == u.sourceHash)
    && (phase.Replacing? ==> u.token in s.files.temporary && s.files.temporary[u.token] == u.payload)
    && (phase.Verifying? ==> phase.key in s.files.objects)
    && (phase.Cleaning? || phase.Ended? ==> Honest(s, hash, u, phase.result))
  }

  // A result that can be relied on; corruption is never reported because it never happens.
  ghost predicate Honest(s: State, hash: Bytes -> string, u: Upload, result: Result<Stored, PutError>) {
    match result
    case Ok(stored) =>
      && hash(u.payload) == u.sourceHash && ObjectKey(u.projectId, u.sourceHash) == Some(stored.key)
      && stored.key in s.files.objects && SizeKnown(s, hash, u, stored.size)
    case Err(error) =>
      error == ReplaceFailed || (error == HashMismatch && hash(u.payload) != u.sourceHash)
      || (error == BadIdentity && ObjectKey(u.projectId, u.sourceHash).None?)
  }

  // The reported size is that of some upload with the same digest.
  ghost predicate SizeKnown(s: State, hash: Bytes -> string, u: Upload, size: nat) {
    exists id :: id in s.uploads && hash(s.uploads[id].payload) == u.sourceHash && |s.uploads[id].payload| == size
  }

  // Every object came from an upload of exactly these bytes under their own digest.
  ghost predicate ObjectSound(s: State, hash: Bytes -> string, key: string)
    requires key in s.files.objects
  {
    exists id :: UploadedBy(s, hash, key, id)
  }

  ghost predicate UploadedBy(s: State, hash: Bytes -> string, key: string, id: nat)
    requires key in s.files.objects
  {
    && id in s.uploads && s.uploads[id].payload == s.files.objects[key]
    && ObjectKey(s.uploads[id].projectId, s.uploads[id].sourceHash) == Some(key)
    && hash(s.files.objects[key]) == s.uploads[id].sourceHash
  }

  ghost predicate Inv(s: State, hash: Bytes -> string) {
    && s.phases.Keys <= s.uploads.Keys
    && (forall a, b :: a in s.uploads && b in s.uploads && a != b ==> s.uploads[a].token != s.uploads[b].token)
    && (forall id :: id in s.uploads ==> s.uploads[id].token in s.tokens)
    && (forall id :: id in s.phases ==> UploadSound(s, hash, id))
    && (forall key :: key in s.files.objects ==> ObjectSound(s, hash, key))
  }

  // ---- every step keeps the invariant

  // Objects stay, their digests with them, and uploads are only added.
  ghost predicate Grows(s: State, t: State, hash: Bytes -> string) {
    && s.uploads.Keys <= t.uploads.Keys && (forall id :: id in s.uploads ==> t.uploads[id] == s.uploads[id])
    && s.tokens <= t.tokens
    && (forall key :: key in s.files.objects ==>
          key in t.files.objects && hash(t.files.objects[key]) == hash(s.files.objects[key]))
  }

  lemma {:induction false} HonestStays(s: State, t: State, hash: Bytes -> string, u: Upload, result: Result<Stored, PutError>)
    requires Honest(s, hash, u, result) && Grows(s, t, hash)
    ensures Honest(t, hash, u, result)
  {
    if result.Ok? {
      var id :| id in s.uploads && hash(s.uploads[id].payload) == u.sourceHash && |s.uploads[id].payload| == result.value.size;
      assert id in t.uploads && t.uploads[id] == s.uploads[id];
    }
  }

  lemma {:induction false} OtherStaysSound(s: State, t: State, hash: Bytes -> string, id: nat)
    requires Inv(s, hash) && id in s.phases && id in t.phases && t.phases[id] == s.phases[id]
    requires Grows(s, t, hash)
    requires s.phases[id].Replacing? ==>
               s.uploads[id].token in t.files.temporary
               && t.files.temporary[s.uploads[id].token] == s.files.temporary[s.uploads[id].token]
    ensures UploadSound(t, hash, id)
  {
    assert UploadSound(s, hash, id);
    if s.phases[id].Cleaning? || s.phases[id].Ended? {
      HonestStays(s, t, hash, s.uploads[id], s.phases[id].result);
    }
  }

  // Replacing an object by the bytes of an upload under their own key.
  lemma {:induction false} ReplacedIsSound(s: State, t: State, hash: Bytes -> string, id: nat, key: string)
    requires Inv(s, hash) && Grows(s, t, hash) && id in s.uploads && id in s.phases && s.phases[id] == Replacing(key)
    requires t.files.objects == s.files.objects[key := s.uploads[id].payload]
    ensures forall k :: k in t.files.objects ==> ObjectSound(t, hash, k)
  {
    assert UploadSound(s, hash, id);
    forall k | k in t.files.objects
      ensures ObjectSound(t, hash, k)
    {
      if k == key {
        assert UploadedBy(t, hash, k, id);
      } else {
        assert ObjectSound(s, hash, k);
        var a :| UploadedBy(s, hash, k, a);
        assert UploadedBy(t, hash, k, a);
      }
    }
  }

  lemma {:induction false} ObjectsStaySound(s: State, t: State, hash: Bytes -> string)
    requires Inv(s, hash) && Grows(s, t, hash) && t.files.objects == s.files.objects
    ensures forall k :: k in t.files.objects ==> ObjectSound(t, hash, k)
  {
    forall k | k in t.files.objects
      ensures ObjectSound(t, hash, k)
    {
      assert ObjectSound(s, hash, k);
      var a :| UploadedBy(s, hash, k, a);
      assert UploadedBy(t, hash, k, a);
    }
  }

  lemma {:induction false} GoGrows(s: State, hash: Bytes -> string, id: nat, ok: bool)
    requires Inv(s, hash) && id in s.phases
    ensures Grows(s, Apply(s, hash, Go(id, ok)), hash)
  {
    assert UploadSound(s, hash, id);
    if s.phases[id].Replacing? && s.phases[id].key in s.files.objects {
      SoundDigest(s, hash, id, s.phases[id].key);
    }
  }

  lemma {:induction false} StepIsSound(s: State, hash: Bytes -> string, id: nat, ok: bool)
    requires Inv(s, hash) && id in s.phases
    ensures UploadSound(Apply(s, hash, Go(id, ok)), hash, id)
  {
    assert UploadSound(s, hash, id);
    match s.phases[id]
    case Looking(_) => LookingIsSound(s, hash, id, ok);
    case Verifying(_) => VerifyingIsSound(s, hash, id, ok);
    case Cleaning(result) => HonestStays(s, Apply(s, hash, Go(id, ok)), hash, s.uploads[id], result);
    case _ =>
  }

  lemma {:induction false} LookingIsSound(s: State, hash: Bytes -> string, id: nat, ok: bool)
    requires Inv(s, hash) && id in s.phases && s.phases[id].Looking?
    ensures UploadSound(Apply(s, hash, Go(id, ok)), hash, id)
  {
    assert UploadSound(s, hash, id);
    if s.phases[id].key in s.files.objects {
      LookedUpIsHonest(s, hash, id, s.phases[id].key);
    }
  }

  lemma {:induction false} VerifyingIsSound(s: State, hash: Bytes -> string, id: nat, ok: bool)
    requires Inv(s, hash) && id in s.phases && s.phases[id].Verifying?
    ensures UploadSound(Apply(s, hash, Go(id, ok)), hash, id)
  {
    assert UploadSound(s, hash, id);
    VerifiedIsHonest(s, hash, id, s.phases[id].key);
  }

  lemma {:induction false} SoundDigest(s: State, hash: Bytes -> string, id: nat, key: string)
    requires Inv(s, hash) && id in s.phases && KeyOf(s.phases[id]) == Some(key) && key in s.files.objects
    ensures hash(s.files.objects[key]) == s.uploads[id].sourceHash
    ensures exists a :: UploadedBy(s, hash, key, a)
  {
    assert UploadSound(s, hash, id);
    assert ObjectSound(s, hash, key);
    var a :| UploadedBy(s, hash, key, a);
    var u, v := s.uploads[id], s.uploads[a];
    KeysAreInjective(u.projectId, u.sourceHash, v.projectId, v.sourceHash);
  }

  lemma {:induction false} LookedUpIsHonest(s: State, hash: Bytes -> string, id: nat, key: string)
    requires Inv(s, hash) && id in s.phases && s.phases[id] == Looking(key) && key in s.files.objects
    ensures hash(s.files.objects[key]) == s.uploads[id].sourceHash
    ensures SizeKnown(s, hash, s.uploads[id], |s.files.objects[key]|)
  {
    SoundDigest(s, hash, id, key);
    var a :| UploadedBy(s, hash, key, a);
    assert a in s.uploads;
  }

  lemma {:induction false} VerifiedIsHonest(s: State, hash: Bytes -> string, id: nat, key: string)
    requires Inv(s, hash) && id in s.phases && s.phases[id] == Verifying(key)
    ensures key in s.files.objects && hash(s.files.objects[key]) == s.uploads[id].sourceHash
    ensures SizeKnown(s, hash, s.uploads[id], |s.uploads[id].payload|)
  {
    assert UploadSound(s, hash, id);
    SoundDigest(s, hash, id, key);
    assert hash(s.uploads[id].payload) == s.uploads[id].sourceHash;
  }

  lemma {:induction false} GoKeepsInv(s: State, hash: Bytes -> string, id: nat, ok: bool)
    requires Inv(s, hash) && id in s.phases
    ensures Inv(Apply(s, hash, Go(id, ok)), hash)
  {
    var t := Apply(s, hash, Go(id, ok));
    GoGrows(s, hash, id, ok);
    forall a | a in t.phases
      ensures UploadSound(t, hash, a)
    {
      if a == id {
        StepIsSound(s, hash, id, ok);
      } else {
        GoKeepsOther(s, hash, id, ok, a);
      }
    }
    GoKeepsObjects(s, hash, id, ok);
  }

  lemma {:induction false} GoKeepsOther(s: State, hash: Bytes -> string, id: nat, ok: bool, a: nat)
    requires Inv(s, hash) && id in s.phases && a in s.phases && a != id
    ensures UploadSound(Apply(s, hash, Go(id, ok)), hash, a)
  {
    GoGrows(s, hash, id, ok);
    assert UploadSound(s, hash, a) && s.uploads[a].token != s.uploads[id].token;
    OtherStaysSound(s, Apply(s, hash, Go(id, ok)), hash, a);
  }

  lemma {:induction false} GoKeepsObjects(s: State, hash: Bytes -> string, id: nat, ok: bool)
    requires Inv(s, hash) && id in s.phases
    ensures forall k :: k in Apply(s, hash, Go(id, ok)).files.objects ==> ObjectSound(Apply(s, hash, Go(id, ok)), hash, k)
  {
    var t := Apply(s, hash, Go(id, ok));
    GoGrows(s, hash, id, ok);
    assert UploadSound(s, hash, id);
    if t.files.objects != s.files.objects {
      ReplacedIsSound(s, t, hash, id, s.phases[id].key);
    } else {
      ObjectsStaySound(s, t, hash);
    }
  }

  lemma {:induction false} QuietMoveKeepsInv(s: State, hash: Bytes -> string, move: Move)
    requires Inv(s, hash) && !move.Go?
    ensures Inv(Apply(s, hash, move), hash) && Grows(s, Apply(s, hash, move), hash)
  {
    var t := Apply(s, hash, move);
    assert Grows(s, t, hash);
    forall a | a in t.phases
      ensures UploadSound(t, hash, a)
    {
      QuietMoveKeepsUpload(s, hash, move, a);
    }
    ObjectsStaySound(s, t, hash);
  }

  lemma {:induction false} QuietMoveKeepsUpload(s: State, hash: Bytes -> string, move: Move, a: nat)
    requires Inv(s, hash) && !move.Go? && a in Apply(s, hash, move).phases
    ensures UploadSound(Apply(s, hash, move), hash, a)
  {
    var t := Apply(s, hash, move);
    if a in s.phases && t.phases[a] == s.phases[a] {
      assert UploadSound(s, hash, a);
      assert Grows(s, t, hash);
      OtherStaysSound(s, t, hash, a);
    }
  }

  lemma {:induction false} ApplyKeepsInv(s: State, hash: Bytes -> string, move: Move)
    requires Inv(s, hash)
    ensures Inv(Apply(s, hash, move), hash) && Grows(s, Apply(s, hash, move), hash)
  {
    if move.Go? {
      if move.id in s.phases {
        GoKeepsInv(s, hash, move.id, move.ok);
        GoGrows(s, hash, move.id, move.ok);
      }
    } else {
      QuietMoveKeepsInv(s, hash, move);
    }
  }

  lemma {:induction false} ReachableHasInv(hash: Bytes -> string, moves: seq<Move>)
    ensures Inv(After(hash, moves), hash)
    decreases |moves|
  {
    if moves != [] {
      ReachableHasInv(hash, moves[..|moves| - 1]);
      ApplyKeepsInv(After(hash, moves[..|moves| - 1]), hash, moves[|moves| - 1]);
    }
  }

  lemma {:induction false} LaterGrows(hash: Bytes -> string, moves: seq<Move>, i: nat)
    requires i <= |moves|
    ensures Grows(After(hash, moves[..i]), After(hash, moves), hash)
    decreases |moves|
  {
    var n := |moves| - 1;
    if i == |moves| {
      assert moves[..i] == moves;
    } else {
      assert moves[..n][..i] == moves[..i];
      LaterGrows(hash, moves[..n], i);
      ReachableHasInv(hash, moves[..n]);
      ApplyKeepsInv(After(hash, moves[..n]), hash, moves[n]);
    }
  }

  // ---------------------------------------------------------------- theorems

  /**
   * However uploads interleave and wherever they crash, every object holds the complete bytes of
   * some upload under their own digest and key: nothing torn is ever visible.
   */
  lemma {:induction false} ObjectsMatchTheirKeys(hash: Bytes -> string, moves: seq<Move>, key: string)
    requires key in After(hash, moves).files.objects
    ensures exists id :: UploadedBy(After(hash, moves), hash, key, id)
  {
    ReachableHasInv(hash, moves);
    assert ObjectSound(After(hash, moves), hash, key);
  }

  /** An object is never removed, and its digest never changes. */
  lemma {:induction false} ObjectsStay(hash: Bytes -> string, moves: seq<Move>, i: nat, key: string)
    requires i <= |moves| && key in After(hash, moves[..i]).files.objects
    ensures var before, after := After(hash, moves[..i]).files.objects, After(hash, moves).files.objects;
            key in after && hash(after[key]) == hash(before[key])
  {
    LaterGrows(hash, moves, i);
  }

  /** No upload ever reports a corrupt object or a failed verification. */
  lemma {:induction false} NothingIsCorrupt(hash: Bytes -> string, moves: seq<Move>, id: nat)
    requires id in After(hash, moves).phases && After(hash, moves).phases[id].Ended?
    ensures var result := After(hash, moves).phases[id].result;
            result.Err? ==> result.error != CorruptObject && result.error != VerifyFailed
  {
    ReachableHasInv(hash, moves);
    assert UploadSound(After(hash, moves), hash, id);
  }

  // No two payloads of the run have the same digest without being the same.
  ghost predicate NoCollision(s: State, hash: Bytes -> string) {
    forall a, b :: a in s.uploads && b in s.uploads && hash(s.uploads[a].payload) == hash(s.uploads[b].payload) ==>
      s.uploads[a].payload == s.uploads[b].payload
  }

  /**
   * A completed put is never undone: in every later state a read with the returned key and size
   * gives back exactly the bytes that were stored.
   */
  lemma {:induction false} StoredBytesAreReadBack(hash: Bytes -> string, moves: seq<Move>, i: nat, id: nat)
    requires i <= |moves| && id in After(hash, moves[..i]).phases
    requires After(hash, moves[..i]).phases[id].Ended? && After(hash, moves[..i]).phases[id].result.Ok?
    requires id in After(hash, moves[..i]).uploads && NoCollision(After(hash, moves), hash)
    ensures var s, t := After(hash, moves[..i]), After(hash, moves);
            var stored, u := s.phases[id].result.value, s.uploads[id];
            Read(t.files, hash, stored.key, u.sourceHash, stored.size) == Some(u.payload)
  {
    var s, t := After(hash, moves[..i]), After(hash, moves);
    ReachableHasInv(hash, moves[..i]);
    ReachableHasInv(hash, moves);
    LaterGrows(hash, moves, i);
    assert UploadSound(s, hash, id);
    var stored, u := s.phases[id].result.value, s.uploads[id];
    HonestStays(s, t, hash, u, Ok(stored));
    assert t.uploads[id] == u;
    assert ObjectSound(t, hash, stored.key);
    var a :| UploadedBy(t, hash, stored.key, a);
    KeysAreInjective(u.projectId, u.sourceHash, t.uploads[a].projectId, t.uploads[a].sourceHash);
    assert t.files.objects[stored.key] == u.payload;
    var b :| b in t.uploads && hash(t.uploads[b].payload) == u.sourceHash && |t.uploads[b].payload| == stored.size;
  }
}
