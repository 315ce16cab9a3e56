/** The layout of the source store and what a reader accepts. */
module StoreRules {
  import opened Results
  import opened Texts
  import opened SourceStore

  /** An object lies under its project and, by the first two characters, under its digest. */
  lemma {:induction false} KeyMeans(projectId: int, hash: string)
    ensures ObjectKey(projectId, hash).Some? <==> projectId >= 1 && |hash| == 64
    ensures projectId >= 1 && |hash| == 64 ==>
              ObjectKey(projectId, hash) ==
              Some("projects/" + Decimal(projectId) + "/source/sha256/" + hash[..2] + "/" + hash + ".json")
  {
    if projectId >= 1 && |hash| == 64 {
      var a, b, c := "projects/" + Decimal(projectId), "/source/sha256/" + hash[..2] + "/", hash + ".json";
      assert KeyTail(hash) == (b + hash) + ".json" && (b + hash) + ".json" == b + c;
      assert a + (b + c) == a + "/source/sha256/" + hash[..2] + "/" + hash + ".json";
    }
  }

  /** A reader gets the stored bytes exactly when they have the size and the digest it asks for. */
  lemma {:induction false} ReadMeans(files: Files, hash: Bytes -> string, key: string, sourceHash: string, size: nat, payload: Bytes)
    ensures Read(files, hash, key, sourceHash, size) == Some(payload) <==>
            key in files.objects && files.objects[key] == payload && |payload| == size && hash(payload) == sourceHash
  {
  }

  /** Why an undisturbed upload fails, in the order of the checks. */
  lemma {:induction false} WhyNotMeans(objects: map<string, Bytes>, hash: Bytes -> string, projectId: int, payload: Bytes, sourceHash: string)
    ensures var error := WhyNot(objects, hash, projectId, payload, sourceHash);
            && (hash(payload) != sourceHash ==> error == HashMismatch)
            && (hash(payload) == sourceHash && (projectId < 1 || |sourceHash| != 64) ==> error == BadIdentity)
            && (hash(payload) == sourceHash && projectId >= 1 && |sourceHash| == 64 ==>
                  error == if ObjectKey(projectId, sourceHash).value in objects then CorruptObject else ReplaceFailed)
  {
    KeyMeans(projectId, sourceHash);
  }

  /**
   * An upload writes only what it was given, under its own digest, and believes only what it has read
   * back: a stored object is taken over exactly when its digest is right, and a replaced one confirmed.
   */
  lemma {:induction false} StepMeans(u: Upload, key: string, files: Files, hash: Bytes -> string, ok: bool)
    ensures Step(u, Checking, files, hash, ok) ==
            (if hash(u.payload) != u.sourceHash then Ended(Err(HashMismatch))
             else if ObjectKey(u.projectId, u.sourceHash).None? then Ended(Err(BadIdentity))
             else Looking(ObjectKey(u.projectId, u.sourceHash).value), files)
    ensures var (to, after) := Step(u, Looking(key), files, hash, ok);
            && after == files && (to == Opening(key) <==> key !in files.objects)
            && (key in files.objects ==>
                  to == if hash(files.objects[key]) == u.sourceHash then Ended(Ok(Stored(key, |files.objects[key]|)))
                        else Ended(Err(CorruptObject)))
    ensures var (to, after) := Step(u, Replacing(key), files, hash, ok);
            && (forall k :: k in files.objects || k in after.objects ==>
                  k == key || (k in files.objects && k in after.objects && after.objects[k] == files.objects[k]))
            && (ok && u.token in files.temporary ==>
                  to == Verifying(key) && key in after.objects && after.objects[key] == files.temporary[u.token])
            && (!(ok && u.token in files.temporary) ==>
                  after == files && to == if key in files.objects then Verifying(key) else Cleaning(Err(ReplaceFailed)))
    ensures var (to, after) := Step(u, Verifying(key), files, hash, ok);
            after == files
            && to == Cleaning(if key in files.objects && hash(files.objects[key]) == u.sourceHash then Ok(Stored(key, |u.payload|))
                              else Err(VerifyFailed))
  {
  }
}
