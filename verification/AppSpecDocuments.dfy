/**
 * Normalisation of product-intent documents, schemas/app_spec.py.
 *
 * Model output is coerced into items with unique ids, then checked field by field, then its
 * criteria are tied to features.  `digest` is the ten-character hash the ids are made with.
 */
module AppSpecDocuments {
  import opened Results
  import opened Json
  import opened Texts
  import opened AppSpecs

  const MAX_LIST: nat := 50
  const MAX_TEXT: nat := 2000
  const MAX_ID: nat := 64

  // ---------------------------------------------------------------- identifiers

  predicate IsWordChar(c: char) {
    'A' <= c <= 'Z' || 'a' <= c <= 'z' || '0' <= c <= '9'
  }

  predicate ValidId(s: string) {
    1 <= |s| <= MAX_ID && IsWordChar(s[0]) && forall i :: 0 <= i < |s| ==> IsWordChar(s[i]) || s[i] == '_' || s[i] == '-'
  }

  function Underscored(s: string): (r: string)
    ensures |r| == |s| && forall i :: 0 <= i < |s| ==> r[i] == if s[i] == ' ' then '_' else s[i]
  {
    seq(|s|, i requires 0 <= i < |s| => if s[i] == ' ' then '_' else s[i])
  }

  function Candidate(prefix: string, seed: string, digest: string -> string): string {
    prefix + "_" + digest(seed)
  }

  // The k-th identifier tried after the first.
  function Retried(prefix: string, first: string, k: nat, digest: string -> string): string {
    if k == 0 then first else Candidate(prefix, Retried(prefix, first, k - 1, digest) + ":dup", digest)
  }

  // The first of the next n identifiers that is free.
  function Escape(prefix: string, candidate: string, used: set<string>, n: nat, digest: string -> string): string
    decreases n
  {
    if n == 0 || candidate !in used then candidate
    else Escape(prefix, Candidate(prefix, candidate + ":dup", digest), used, n - 1, digest)
  }

  // What the hash gives: ten hexadecimal characters.
  ghost predicate HexDigest(digest: string -> string) {
    forall s :: |digest(s)| == 10 && forall i :: 0 <= i < 10 ==> '0' <= digest(s)[i] <= '9' || 'a' <= digest(s)[i] <= 'f'
  }

  function FirstId(prefix: string, text: string, index: nat, digest: string -> string): string {
    Candidate(prefix, prefix + ":" + Decimal(index) + ":" + text, digest)
  }

  function StableId(prefix: string, text: string, index: nat, used: set<string>, digest: string -> string): string {
    Escape(prefix, FirstId(prefix, text, index, digest), used, |used|, digest)
  }

  // The chain of retries from the first identifier comes to one that is free.
  ghost predicate Leaves(prefix: string, text: string, index: nat, used: set<string>, digest: string -> string) {
    exists k: nat :: Retried(prefix, FirstId(prefix, text, index, digest), k, digest) !in used
  }

  // The first n identifiers of the chain are taken.
  ghost predicate Taken(prefix: string, first: string, used: set<string>, n: nat, digest: string -> string) {
    forall i: nat :: i < n ==> Retried(prefix, first, i, digest) in used
  }

  // ---- a chain that stays in a finite set comes back, and then it stays there for good

  lemma {:induction false} RetriesShift(prefix: string, first: string, i: nat, j: nat, d: nat, digest: string -> string)
    requires Retried(prefix, first, i, digest) == Retried(prefix, first, j, digest)
    ensures Retried(prefix, first, i + d, digest) == Retried(prefix, first, j + d, digest)
  {
    if d > 0 {
      RetriesShift(prefix, first, i, j, d - 1, digest);
    }
  }

  ghost predicate Repeats(prefix: string, first: string, i: nat, j: nat, digest: string -> string) {
    i < j && Retried(prefix, first, i, digest) == Retried(prefix, first, j, digest)
  }

  // More retries than there are identifiers taken cannot all be different.
  lemma {:induction false} SomeRepeat(prefix: string, first: string, used: set<string>, n: nat, digest: string -> string)
    returns (i: nat, j: nat)
    requires |used| < n && Taken(prefix, first, used, n, digest)
    ensures j < n && Repeats(prefix, first, i, j, digest)
    decreases n
  {
    var last := Retried(prefix, first, n - 1, digest);
    if k: nat :| k < n - 1 && Retried(prefix, first, k, digest) == last {
      i, j := k, n - 1;
    } else {
      i, j := SomeRepeat(prefix, first, used - {last}, n - 1, digest);
    }
  }

  lemma {:induction false} NeverLeaves(prefix: string, first: string, used: set<string>, n: nat, i: nat, j: nat, k: nat, digest: string -> string)
    requires Taken(prefix, first, used, n, digest) && j < n && Repeats(prefix, first, i, j, digest)
    ensures Retried(prefix, first, k, digest) in used
    decreases k
  {
    if k >= j {
      RetriesShift(prefix, first, i, j, k - j, digest);
      NeverLeaves(prefix, first, used, n, i, j, k - (j - i), digest);
    }
  }

  /** A chain that leaves the used identifiers at all has left them after as many retries as there are. */
  lemma {:induction false} LeavesSoon(prefix: string, text: string, index: nat, used: set<string>, digest: string -> string)
    ensures Leaves(prefix, text, index, used, digest) <==>
            !Taken(prefix, FirstId(prefix, text, index, digest), used, |used| + 1, digest)
  {
    var first := FirstId(prefix, text, index, digest);
    if Taken(prefix, first, used, |used| + 1, digest) {
      var i, j := SomeRepeat(prefix, first, used, |used| + 1, digest);
      forall k: nat
        ensures Retried(prefix, first, k, digest) in used
      {
        NeverLeaves(prefix, first, used, |used| + 1, i, j, k, digest);
      }
    }
  }

  /** A digest whose chain comes back can trap the loop: it is enough that the ids up to there are taken. */
  lemma {:induction false} ReturningChainIsTrapped(prefix: string, text: string, index: nat, i: nat, j: nat, digest: string -> string)
    returns (used: set<string>)
    requires Repeats(prefix, FirstId(prefix, text, index, digest), i, j, digest)
    ensures |used| <= j && !Leaves(prefix, text, index, used, digest)
  {
    var first := FirstId(prefix, text, index, digest);
    used := ChainSet(prefix, first, j, digest);
    forall k: nat
      ensures Retried(prefix, first, k, digest) in used
    {
      assert Taken(prefix, first, used, j + 1, digest);
      NeverLeaves(prefix, first, used, j + 1, i, j, k, digest);
    }
  }

  // The first n identifiers of a chain.
  function ChainSet(prefix: string, first: string, n: nat, digest: string -> string): (r: set<string>)
    ensures |r| <= n && forall i: nat :: i < n ==> Retried(prefix, first, i, digest) in r
  {
    if n == 0 then {} else ChainSet(prefix, first, n - 1, digest) + {Retried(prefix, first, n - 1, digest)}
  }

  // The k-th retry is being looked at, all earlier ones were taken.
  ghost predicate Trying(prefix: string, first: string, used: set<string>, k: nat, id: string, digest: string -> string) {
    k <= |used| && id == Retried(prefix, first, k, digest) && Taken(prefix, first, used, k, digest)
  }

  lemma {:induction false} TryNext(prefix: string, text: string, index: nat, used: set<string>, k: nat, id: string, digest: string -> string)
    requires Leaves(prefix, text, index, used, digest)
    requires Trying(prefix, FirstId(prefix, text, index, digest), used, k, id, digest) && id in used
    ensures k < |used|
    ensures Trying(prefix, FirstId(prefix, text, index, digest), used, k + 1, Candidate(prefix, id + ":dup", digest), digest)
    ensures Escape(prefix, id, used, |used| - k, digest) ==
            Escape(prefix, Candidate(prefix, id + ":dup", digest), used, |used| - k - 1, digest)
  {
    LeavesSoon(prefix, text, index, used, digest);
    assert Taken(prefix, FirstId(prefix, text, index, digest), used, k + 1, digest);
  }

  /** The retry loop.  It asks for exactly the inputs on which it ends. */
  method MakeStableId(prefix: string, text: string, index: nat, used: set<string>, digest: string -> string)
    returns (id: string)
    requires Leaves(prefix, text, index, used, digest)
    ensures id == StableId(prefix, text, index, used, digest) && id !in used
  {
    id := FirstId(prefix, text, index, digest);
    ghost var k := 0;
    while id in used
      invariant Trying(prefix, FirstId(prefix, text, index, digest), used, k, id, digest)
      invariant StableId(prefix, text, index, used, digest) == Escape(prefix, id, used, |used| - k, digest)
      decreases |used| - k
    {
      TryNext(prefix, text, index, used, k, id, digest);
      id := Candidate(prefix, id + ":dup", digest);
      k := k + 1;
    }
  }

  // The k-th identifier of the chain and the next n are taken.
  ghost predicate TakenFrom(prefix: string, first: string, used: set<string>, k: nat, n: nat, digest: string -> string) {
    forall i: nat :: k <= i <= k + n ==> Retried(prefix, first, i, digest) in used
  }

  lemma {:induction false} EscapeStays(prefix: string, first: string, k: nat, used: set<string>, n: nat, digest: string -> string)
    ensures Escape(prefix, Retried(prefix, first, k, digest), used, n, digest) in used <==>
            TakenFrom(prefix, first, used, k, n, digest)
    decreases n
  {
    if n > 0 {
      EscapeStays(prefix, first, k + 1, used, n - 1, digest);
      assert Candidate(prefix, Retried(prefix, first, k, digest) + ":dup", digest) == Retried(prefix, first, k + 1, digest);
    }
  }

  /** The identifier is free exactly when its chain leaves the used ones, whatever the digest does. */
  lemma {:induction false} FreeIffChainLeaves(prefix: string, text: string, index: nat, used: set<string>, digest: string -> string)
    ensures StableId(prefix, text, index, used, digest) !in used <==> Leaves(prefix, text, index, used, digest)
  {
    var first := FirstId(prefix, text, index, digest);
    assert Retried(prefix, first, 0, digest) == first;
    EscapeStays(prefix, first, 0, used, |used|, digest);
    assert TakenFrom(prefix, first, used, 0, |used|, digest) <==> Taken(prefix, first, used, |used| + 1, digest);
    LeavesSoon(prefix, text, index, used, digest);
  }

  lemma {:induction false} EscapeIsCandidate(prefix: string, candidate: string, used: set<string>, n: nat, digest: string -> string)
    requires exists seed :: candidate == Candidate(prefix, seed, digest)
    ensures exists seed :: Escape(prefix, candidate, used, n, digest) == Candidate(prefix, seed, digest)
    decreases n
  {
    if n > 0 && candidate in used {
      EscapeIsCandidate(prefix, Candidate(prefix, candidate + ":dup", digest), used, n - 1, digest);
    }
  }

  // The prefixes of the five lists.
  predicate ShortWord(prefix: string) {
    1 <= |prefix| <= 8 && forall i :: 0 <= i < |prefix| ==> IsWordChar(prefix[i])
  }

  lemma {:induction false} StableIdIsValid(prefix: string, text: string, index: nat, used: set<string>, digest: string -> string)
    requires HexDigest(digest) && ShortWord(prefix)
    ensures ValidId(StableId(prefix, text, index, used, digest))
  {
    EscapeIsCandidate(prefix, FirstId(prefix, text, index, digest), used, |used|, digest);
    var seed :| StableId(prefix, text, index, used, digest) == Candidate(prefix, seed, digest);
    var id := Candidate(prefix, seed, digest);
    assert forall i :: 0 <= i < |id| ==>
      (i < |prefix| ==> id[i] == prefix[i]) && (i == |prefix| ==> id[i] == '_')
      && (i > |prefix| ==> id[i] == digest(seed)[i - |prefix| - 1]);
  }

  // ---------------------------------------------------------------- drawing ids from one pool

  function IdsOf<B>(bs: seq<B>, ids: B -> set<string>): set<string> {
    if bs == [] then {} else IdsOf(bs[..|bs| - 1], ids) + ids(bs[|bs| - 1])
  }

  // Makes one result after the other; each sees the ids of all results before it.
  function Draw<A, B>(xs: seq<A>, used: set<string>, one: (A, nat, set<string>) -> Option<B>, ids: B -> set<string>): (r: Option<seq<B>>)
    ensures r.Some? ==> |r.value| == |xs|
  {
    if xs == [] then Some([])
    else
      var n := |xs| - 1;
      var front := Draw(xs[..n], used, one, ids);
      if front.None? then None
      else
        var last := one(xs[n], n, used + IdsOf(front.value, ids));
        if last.None? then None else Some(front.value + [last.value])
  }

  lemma {:induction false} DrawFails<A, B>(xs: seq<A>, used: set<string>, one: (A, nat, set<string>) -> Option<B>, ids: B -> set<string>, i: nat)
    requires i <= |xs| && Draw(xs[..i], used, one, ids).None?
    ensures Draw(xs, used, one, ids).None?
    decreases |xs|
  {
    if i == |xs| {
      assert xs[..i] == xs;
    } else {
      var n := |xs| - 1;
      assert xs[..n][..i] == xs[..i];
      DrawFails(xs[..n], used, one, ids, i);
    }
  }

  lemma {:induction false} DrawNext<A, B>(
      xs: seq<A>, used: set<string>, one: (A, nat, set<string>) -> Option<B>, ids: B -> set<string>, i: nat, bs: seq<B>, b: Option<B>)
    requires i < |xs| && Draw(xs[..i], used, one, ids) == Some(bs) && b == one(xs[i], i, used + IdsOf(bs, ids))
    ensures b.None? ==> Draw(xs, used, one, ids).None?
    ensures b.Some? ==> Draw(xs[..i + 1], used, one, ids) == Some(bs + [b.value])
  {
    assert xs[..i + 1][..i] == xs[..i];
    if b.None? {
      DrawFails(xs, used, one, ids, i + 1);
    }
  }

  // Every result is made from its own value and the ids before it.
  ghost predicate DrawnEach<A(!new), B(!new)>(
      xs: seq<A>, used: set<string>, one: (A, nat, set<string>) -> Option<B>, ids: B -> set<string>, bs: seq<B>)
  {
    |bs| == |xs| && forall k: nat :: k < |xs| ==> DrawnAt(xs, used, one, ids, bs, k)
  }

  ghost predicate DrawnAt<A(!new), B(!new)>(
      xs: seq<A>, used: set<string>, one: (A, nat, set<string>) -> Option<B>, ids: B -> set<string>, bs: seq<B>, k: nat)
    requires k < |xs| && k < |bs|
  {
    one(xs[k], k, used + IdsOf(bs[..k], ids)) == Some(bs[k])
  }

  lemma {:induction false} DrawIsEach<A(!new), B(!new)>(
      xs: seq<A>, used: set<string>, one: (A, nat, set<string>) -> Option<B>, ids: B -> set<string>, bs: seq<B>)
    ensures Draw(xs, used, one, ids) == Some(bs) <==> DrawnEach(xs, used, one, ids, bs)
    decreases |xs|
  {
    if xs != [] && |bs| == |xs| {
      var n := |xs| - 1;
      DrawIsEach(xs[..n], used, one, ids, bs[..n]);
      assert bs == bs[..n] + [bs[n]];
      forall k: nat | k < n
        ensures DrawnAt(xs, used, one, ids, bs, k) <==> DrawnAt(xs[..n], used, one, ids, bs[..n], k)
      {
        assert bs[..n][..k] == bs[..k];
      }
      if Draw(xs, used, one, ids) == Some(bs) {
        assert Draw(xs[..n], used, one, ids) == Some(bs[..n]);
        assert DrawnAt(xs, used, one, ids, bs, n);
      }
      if DrawnEach(xs, used, one, ids, bs) {
        assert DrawnAt(xs, used, one, ids, bs, n);
      }
    }
  }

  lemma {:induction false} IdsOfSnoc<B>(bs: seq<B>, b: B, ids: B -> set<string>)
    ensures IdsOf(bs + [b], ids) == IdsOf(bs, ids) + ids(b)
  {
    assert (bs + [b])[..|bs|] == bs;
  }

  lemma {:induction false} IdsOfMember<B>(bs: seq<B>, ids: B -> set<string>, k: nat)
    requires k < |bs|
    ensures ids(bs[k]) <= IdsOf(bs, ids)
    decreases |bs|
  {
    if k < |bs| - 1 {
      IdsOfMember(bs[..|bs| - 1], ids, k);
    }
  }

  lemma {:induction false} IdsOfSource<B>(bs: seq<B>, ids: B -> set<string>, id: string) returns (k: nat)
    requires id in IdsOf(bs, ids)
    ensures k < |bs| && id in ids(bs[k])
    decreases |bs|
  {
    var n := |bs| - 1;
    if id in ids(bs[n]) {
      k := n;
    } else {
      k := IdsOfSource(bs[..n], ids, id);
    }
  }

  // ---------------------------------------------------------------- coercing items

  datatype Draft = Draft(id: string, text: string, sources: seq<Value>)

  function TextOf(v: Value): string {
    if v.Str? then Strip(v.s) else ""
  }

  // "text", else "label", else "title".
  function Titled(fields: map<string, Value>): Value {
    if "text" in fields then fields["text"] else if "label" in fields then fields["label"] else Get(fields, "title")
  }

  function CleanId(v: Value): string {
    if v.Str? then Underscored(Strip(v.s)) else ""
  }

  function ItemId(fields: map<string, Value>, prefix: string, text: string, index: nat, used: set<string>, digest: string -> string): string {
    var cleaned := CleanId(Get(fields, "id"));
    if ValidId(cleaned) && cleaned !in used then cleaned
    else StableId(prefix, if text == "" then prefix else text, index, used, digest)
  }

  function CoerceItem(v: Value, prefix: string, index: nat, used: set<string>, withSources: bool, digest: string -> string): Option<Draft> {
    match v
    case Str(s) => Some(Draft(StableId(prefix, Strip(s), index, used, digest), Strip(s), []))
    case Obj(fields) =>
      var text := TextOf(Titled(fields));
      var sources := if withSources && Get(fields, "source_ids").List? then Get(fields, "source_ids").items else [];
      Some(Draft(ItemId(fields, prefix, text, index, used, digest), text, sources))
    case _ => None
  }

  // One list of the document: its prefix, whether its items name sources, and its raw value.
  datatype Group = Group(prefix: string, withSources: bool, value: Option<Value>)

  function DraftId(): Draft -> set<string> {
    (d: Draft) => {d.id}
  }

  function ItemCoercer(g: Group, digest: string -> string): (Value, nat, set<string>) -> Option<Draft> {
    (v: Value, i: nat, used: set<string>) => CoerceItem(v, g.prefix, i, used, g.withSources, digest)
  }

  function CoerceItems(vs: seq<Value>, g: Group, used: set<string>, digest: string -> string): Option<seq<Draft>> {
    Draw(vs, used, ItemCoercer(g, digest), DraftId())
  }

  // A missing field stays missing, null reads as no items, anything but a short list is refused.
  function CoerceList(g: Group, used: set<string>, digest: string -> string): Option<seq<Draft>> {
    if g.value.None? then None
    else if g.value.value.Null? then Some([])
    else if !g.value.value.List? || |g.value.value.items| > MAX_LIST then None
    else CoerceItems(g.value.value.items, g, used, digest)
  }

  function ListIds(): seq<Draft> -> set<string> {
    (ds: seq<Draft>) => IdsOf(ds, DraftId())
  }

  function ListCoercer(digest: string -> string): (Group, nat, set<string>) -> Option<seq<Draft>> {
    (g: Group, i: nat, used: set<string>) => CoerceList(g, used, digest)
  }

  // The lists of a document draw their ids from the same pool.
  function CoerceGroups(gs: seq<Group>, digest: string -> string): Option<seq<seq<Draft>>> {
    Draw(gs, {}, ListCoercer(digest), ListIds())
  }

  // ---- the chains that a document starts

  // The retry loop ends for this value, if coercing it starts one.
  ghost predicate ItemLeaves(v: Value, g: Group, index: nat, used: set<string>, digest: string -> string) {
    match v
    case Str(s) => Leaves(g.prefix, Strip(s), index, used, digest)
    case Obj(fields) =>
      var id, text := CleanId(Get(fields, "id")), TextOf(Titled(fields));
      (ValidId(id) && id !in used) || Leaves(g.prefix, if text == "" then g.prefix else text, index, used, digest)
    case _ => true
  }

  // ... for the k-th value, with the ids that the values before it were given.
  ghost predicate ItemLeavesAt(vs: seq<Value>, g: Group, used: set<string>, digest: string -> string, k: nat)
    requires k < |vs|
  {
    var front := CoerceItems(vs[..k], g, used, digest);
    front.Some? ==> ItemLeaves(vs[k], g, k, used + IdsOf(front.value, DraftId()), digest)
  }

  ghost predicate ItemsLeave(vs: seq<Value>, g: Group, used: set<string>, digest: string -> string) {
    forall k: nat :: k < |vs| ==> ItemLeavesAt(vs, g, used, digest, k)
  }

  ghost predicate ListLeaves(g: Group, used: set<string>, digest: string -> string) {
    g.value.Some? && g.value.value.List? && |g.value.value.items| <= MAX_LIST ==>
      ItemsLeave(g.value.value.items, g, used, digest)
  }

  ghost predicate ListLeavesAt(gs: seq<Group>, digest: string -> string, k: nat)
    requires k < |gs|
  {
    var front := CoerceGroups(gs[..k], digest);
    front.Some? ==> ListLeaves(gs[k], IdsOf(front.value, ListIds()), digest)
  }

  // Every retry loop that coercing the document comes to ends.
  ghost predicate DocumentLeaves(gs: seq<Group>, digest: string -> string) {
    forall k: nat :: k < |gs| ==> ListLeavesAt(gs, digest, k)
  }

  method CoerceOne(v: Value, g: Group, index: nat, used: set<string>, digest: string -> string) returns (draft: Option<Draft>)
    requires ItemLeaves(v, g, index, used, digest)
    ensures draft == CoerceItem(v, g.prefix, index, used, g.withSources, digest)
  {
    match v
    case Str(s) =>
      var id := MakeStableId(g.prefix, Strip(s), index, used, digest);
      return Some(Draft(id, Strip(s), []));
    case Obj(fields) =>
      var text := TextOf(Titled(fields));
      var id := CleanId(Get(fields, "id"));
      if !ValidId(id) || id in used {
        id := MakeStableId(g.prefix, if text == "" then g.prefix else text, index, used, digest);
      }
      var sources := if g.withSources && Get(fields, "source_ids").List? then Get(fields, "source_ids").items else [];
      return Some(Draft(id, text, sources));
    case _ =>
      return None;
  }

  // The first i values are coerced, and `taken` holds the ids given so far.
  ghost predicate Coerced(vs: seq<Value>, i: nat, items: seq<Draft>, taken: set<string>, g: Group, used: set<string>, digest: string -> string) {
    && i <= |vs| && |items| == i && CoerceItems(vs[..i], g, used, digest) == Some(items)
    && taken == used + IdsOf(items, DraftId())
  }

  lemma {:induction false} CoercedNext(
      vs: seq<Value>, i: nat, items: seq<Draft>, taken: set<string>, g: Group, used: set<string>, digest: string -> string,
      draft: Option<Draft>)
    requires Coerced(vs, i, items, taken, g, used, digest) && i < |vs|
    requires draft == CoerceItem(vs[i], g.prefix, i, taken, g.withSources, digest)
    ensures draft.None? ==> CoerceItems(vs, g, used, digest).None?
    ensures draft.Some? ==> Coerced(vs, i + 1, items + [draft.value], taken + {draft.value.id}, g, used, digest)
  {
    DrawNext(vs, used, ItemCoercer(g, digest), DraftId(), i, items, draft);
    if draft.Some? {
      IdsOfSnoc(items, draft.value, DraftId());
    }
  }

  method CoerceItemList(vs: seq<Value>, g: Group, used: set<string>, digest: string -> string)
    returns (drafts: Option<seq<Draft>>, taken: set<string>)
    requires ItemsLeave(vs, g, used, digest)
    ensures drafts == CoerceItems(vs, g, used, digest)
    ensures drafts.Some? ==> taken == used + IdsOf(drafts.value, DraftId())
  {
    var items: seq<Draft> := [];
    taken := used;
    for i := 0 to |vs|
      invariant Coerced(vs, i, items, taken, g, used, digest)
    {
      assert ItemLeavesAt(vs, g, used, digest, i);
      var draft := CoerceOne(vs[i], g, i, taken, digest);
      CoercedNext(vs, i, items, taken, g, used, digest, draft);
      if draft.None? {
        return None, taken;
      }
      items := items + [draft.value];
      taken := taken + {draft.value.id};
    }
    assert vs[..|vs|] == vs;
    return Some(items), taken;
  }

  // The first i lists are coerced, and `used` holds all ids given so far.
  ghost predicate CoercedLists(gs: seq<Group>, i: nat, done: seq<seq<Draft>>, used: set<string>, digest: string -> string) {
    && i <= |gs| && |done| == i && CoerceGroups(gs[..i], digest) == Some(done)
    && used == IdsOf(done, ListIds())
  }

  lemma {:induction false} CoercedListsNext(
      gs: seq<Group>, i: nat, done: seq<seq<Draft>>, used: set<string>, digest: string -> string,
      drafts: Option<seq<Draft>>, taken: set<string>)
    requires CoercedLists(gs, i, done, used, digest) && i < |gs|
    requires drafts == CoerceList(gs[i], used, digest)
    requires drafts.Some? ==> taken == used + IdsOf(drafts.value, DraftId())
    ensures drafts.None? ==> CoerceGroups(gs, digest).None?
    ensures drafts.Some? ==> CoercedLists(gs, i + 1, done + [drafts.value], taken, digest)
  {
    assert {} + used == used;
    DrawNext(gs, {}, ListCoercer(digest), ListIds(), i, done, drafts);
    if drafts.Some? {
      IdsOfSnoc(done, drafts.value, ListIds());
    }
  }

  method CoerceField(g: Group, used: set<string>, digest: string -> string)
    returns (drafts: Option<seq<Draft>>, taken: set<string>)
    requires ListLeaves(g, used, digest)
    ensures drafts == CoerceList(g, used, digest)
    ensures drafts.Some? ==> taken == used + IdsOf(drafts.value, DraftId())
  {
    taken := used;
    if g.value.None? {
      return None, taken;
    }
    if g.value.value.Null? {
      return Some([]), taken;
    }
    if !g.value.value.List? || |g.value.value.items| > MAX_LIST {
      return None, taken;
    }
    drafts, taken := CoerceItemList(g.value.value.items, g, used, digest);
  }

  method CoerceDocument(gs: seq<Group>, digest: string -> string) returns (lists: Option<seq<seq<Draft>>>)
    requires DocumentLeaves(gs, digest)
    ensures lists == CoerceGroups(gs, digest)
  {
    var done: seq<seq<Draft>> := [];
    var used: set<string> := {};
    for i := 0 to |gs|
      invariant CoercedLists(gs, i, done, used, digest)
    {
      assert ListLeavesAt(gs, digest, i);
      var drafts, taken := CoerceField(gs[i], used, digest);
      CoercedListsNext(gs, i, done, used, digest, drafts, taken);
      if drafts.None? {
        return None;
      }
      done := done + [drafts.value];
      used := taken;
    }
    assert gs[..|gs|] == gs;
    return Some(done);
  }

  // ---- unique ids

  ghost predicate AllValid(ds: seq<Draft>) {
    forall i :: 0 <= i < |ds| ==> ValidId(ds[i].id)
  }

  // Distinct valid ids within a list, none of them used before.
  ghost predicate Unique(drafts: seq<Draft>, used: set<string>) {
    forall k: nat :: k < |drafts| ==> FreeAt(drafts, used, k)
  }

  ghost predicate FreeAt(drafts: seq<Draft>, used: set<string>, k: nat)
    requires k < |drafts|
  {
    ValidId(drafts[k].id) && drafts[k].id !in used + IdsOf(drafts[..k], DraftId())
  }

  // The list takes none of the ids of the lists before it.
  ghost predicate UniqueAt(lists: seq<seq<Draft>>, k: nat)
    requires k < |lists|
  {
    Unique(lists[k], IdsOf(lists[..k], ListIds()))
  }

  ghost predicate AllUnique(lists: seq<seq<Draft>>) {
    forall k: nat :: k < |lists| ==> UniqueAt(lists, k)
  }

  lemma {:induction false} CoercedItemIsNew(v: Value, g: Group, index: nat, used: set<string>, digest: string -> string)
    requires HexDigest(digest) && ShortWord(g.prefix)
    requires CoerceItem(v, g.prefix, index, used, g.withSources, digest).Some?
    ensures var id := CoerceItem(v, g.prefix, index, used, g.withSources, digest).value.id;
            ValidId(id) && (id !in used <==> ItemLeaves(v, g, index, used, digest))
  {
    var text := if v.Str? then Strip(v.s) else if TextOf(Titled(v.fields)) == "" then g.prefix else TextOf(Titled(v.fields));
    FreeIffChainLeaves(g.prefix, text, index, used, digest);
    StableIdIsValid(g.prefix, text, index, used, digest);
  }

  // What is drawn from the first values of a sequence.
  lemma {:induction false} DrawPrefix<A(!new), B(!new)>(
      xs: seq<A>, used: set<string>, one: (A, nat, set<string>) -> Option<B>, ids: B -> set<string>, bs: seq<B>, k: nat)
    requires Draw(xs, used, one, ids) == Some(bs) && k <= |xs|
    ensures |bs| == |xs| && Draw(xs[..k], used, one, ids) == Some(bs[..k])
    decreases |xs|
  {
    if k == |xs| {
      assert xs[..k] == xs && bs[..k] == bs;
    } else {
      var n := |xs| - 1;
      DrawPrefix(xs[..n], used, one, ids, bs[..n], k);
      assert xs[..n][..k] == xs[..k] && bs[..n][..k] == bs[..k];
    }
  }

  lemma {:induction false} FreeIffLeavesAt(vs: seq<Value>, g: Group, used: set<string>, digest: string -> string, ds: seq<Draft>, k: nat)
    requires HexDigest(digest) && ShortWord(g.prefix) && CoerceItems(vs, g, used, digest) == Some(ds) && k < |vs|
    ensures |ds| == |vs| && ValidId(ds[k].id) && (FreeAt(ds, used, k) <==> ItemLeavesAt(vs, g, used, digest, k))
  {
    DrawIsEach(vs, used, ItemCoercer(g, digest), DraftId(), ds);
    DrawPrefix(vs, used, ItemCoercer(g, digest), DraftId(), ds, k);
    assert DrawnAt(vs, used, ItemCoercer(g, digest), DraftId(), ds, k);
    CoercedItemIsNew(vs[k], g, k, used + IdsOf(ds[..k], DraftId()), digest);
  }

  lemma {:induction false} UniqueIffItemsLeave(vs: seq<Value>, g: Group, used: set<string>, digest: string -> string, ds: seq<Draft>)
    requires HexDigest(digest) && ShortWord(g.prefix) && CoerceItems(vs, g, used, digest) == Some(ds)
    ensures AllValid(ds) && (Unique(ds, used) <==> ItemsLeave(vs, g, used, digest))
  {
    DrawIsEach(vs, used, ItemCoercer(g, digest), DraftId(), ds);
    forall k: nat | k < |vs|
      ensures ValidId(ds[k].id) && (FreeAt(ds, used, k) <==> ItemLeavesAt(vs, g, used, digest, k))
    {
      FreeIffLeavesAt(vs, g, used, digest, ds, k);
    }
  }

  lemma {:induction false} UniqueIffListLeaves(g: Group, used: set<string>, digest: string -> string, ds: seq<Draft>)
    requires HexDigest(digest) && ShortWord(g.prefix) && CoerceList(g, used, digest) == Some(ds)
    ensures AllValid(ds) && (Unique(ds, used) <==> ListLeaves(g, used, digest))
  {
    if g.value.value.List? {
      UniqueIffItemsLeave(g.value.value.items, g, used, digest, ds);
    }
  }

  lemma {:induction false} ListDrawnAt(gs: seq<Group>, digest: string -> string, lists: seq<seq<Draft>>, k: nat)
    requires CoerceGroups(gs, digest) == Some(lists) && k < |gs|
    ensures |lists| == |gs| && CoerceList(gs[k], IdsOf(lists[..k], ListIds()), digest) == Some(lists[k])
    ensures CoerceGroups(gs[..k], digest) == Some(lists[..k])
  {
    DrawIsEach(gs, {}, ListCoercer(digest), ListIds(), lists);
    DrawPrefix(gs, {}, ListCoercer(digest), ListIds(), lists, k);
    assert DrawnAt(gs, {}, ListCoercer(digest), ListIds(), lists, k);
    assert {} + IdsOf(lists[..k], ListIds()) == IdsOf(lists[..k], ListIds());
  }

  lemma {:induction false} UniqueIffLeavesAt(gs: seq<Group>, digest: string -> string, lists: seq<seq<Draft>>, k: nat)
    requires HexDigest(digest) && k < |gs| && ShortWord(gs[k].prefix) && CoerceGroups(gs, digest) == Some(lists)
    ensures |lists| == |gs| && AllValid(lists[k]) && (UniqueAt(lists, k) <==> ListLeavesAt(gs, digest, k))
  {
    ListDrawnAt(gs, digest, lists, k);
    UniqueIffListLeaves(gs[k], IdsOf(lists[..k], ListIds()), digest, lists[k]);
  }

  /**
   * Coercion gives every item of a document a valid id of its own, across all of its lists, exactly
   * when each retry loop that it comes to ends.
   */
  lemma {:induction false} CoercedIdsAreUnique(gs: seq<Group>, digest: string -> string)
    requires HexDigest(digest) && CoerceGroups(gs, digest).Some? && forall i :: 0 <= i < |gs| ==> ShortWord(gs[i].prefix)
    ensures forall k :: 0 <= k < |CoerceGroups(gs, digest).value| ==> AllValid(CoerceGroups(gs, digest).value[k])
    ensures AllUnique(CoerceGroups(gs, digest).value) <==> DocumentLeaves(gs, digest)
  {
    var lists := CoerceGroups(gs, digest).value;
    DrawIsEach(gs, {}, ListCoercer(digest), ListIds(), lists);
    forall k: nat | k < |gs|
      ensures AllValid(lists[k]) && (UniqueAt(lists, k) <==> ListLeavesAt(gs, digest, k))
    {
      UniqueIffLeavesAt(gs, digest, lists, k);
    }
  }

  // ---------------------------------------------------------------- the whole document

  datatype RawSpec = RawSpec(
    goal: string, targetUsers: seq<string>,
    features: Option<Value>, dataRequirements: Option<Value>, interfaceRequirements: Option<Value>,
    constraints: Option<Value>, acceptanceCriteria: Option<Value>,
    openQuestions: seq<string>)

  function Groups(raw: RawSpec): (gs: seq<Group>)
    ensures |gs| == 5 && forall i :: 0 <= i < 5 ==> ShortWord(gs[i].prefix)
  {
    [Group("feat", false, raw.features), Group("data", false, raw.dataRequirements),
     Group("ui", false, raw.interfaceRequirements), Group("con", false, raw.constraints),
     Group("ac", true, raw.acceptanceCriteria)]
  }

  // ---- fields

  predicate ValidText(text: string) {
    1 <= |text| <= MAX_TEXT && Strip(text) == text
  }

  predicate DraftOk(d: Draft) {
    && ValidId(d.id) && ValidText(d.text) && |d.sources| <= MAX_LIST
    && forall k :: 0 <= k < |d.sources| ==> d.sources[k].Str? && ValidId(Strip(d.sources[k].s))
  }

  function ToItems(drafts: seq<Draft>): (r: Option<seq<Item>>)
    ensures r.Some? <==> forall i :: 0 <= i < |drafts| ==> DraftOk(drafts[i])
    ensures r.Some? ==> |r.value| == |drafts| && forall i :: 0 <= i < |drafts| ==> r.value[i] == Item(drafts[i].id, drafts[i].text)
  {
    if exists i :: 0 <= i < |drafts| && !DraftOk(drafts[i]) then None
    else Some(seq(|drafts|, i requires 0 <= i < |drafts| => Item(drafts[i].id, drafts[i].text)))
  }

  function SourceIds(sources: seq<Value>): (ids: seq<string>)
    requires forall k :: 0 <= k < |sources| ==> sources[k].Str?
    ensures |ids| == |sources| && forall k :: 0 <= k < |sources| ==> ids[k] == Strip(sources[k].s)
  {
    seq(|sources|, k requires 0 <= k < |sources| => Strip(sources[k].s))
  }

  function ToCriteria(drafts: seq<Draft>): (r: Option<seq<Criterion>>)
    ensures r.Some? <==> forall i :: 0 <= i < |drafts| ==> DraftOk(drafts[i])
    ensures r.Some? ==> |r.value| == |drafts| && forall i :: 0 <= i < |drafts| ==>
              r.value[i] == Criterion(drafts[i].id, drafts[i].text, SourceIds(drafts[i].sources))
  {
    if exists i :: 0 <= i < |drafts| && !DraftOk(drafts[i]) then None
    else Some(seq(|drafts|, i requires 0 <= i < |drafts| =>
                Criterion(drafts[i].id, drafts[i].text, SourceIds(drafts[i].sources))))
  }

  // ---- criteria tied to features

  function Filtered(ids: seq<string>, features: set<string>): (r: seq<string>)
    ensures forall x :: x in r <==> x in ids && x in features
    ensures |r| <= |ids|
  {
    if ids == [] then []
    else
      var n := |ids| - 1;
      assert forall x :: x in ids <==> x in ids[..n] || x == ids[n];
      Filtered(ids[..n], features) + if ids[n] in features then [ids[n]] else []
  }

  function Tied(c: Criterion, features: seq<string>): Criterion {
    var sources := Filtered(c.sourceIds, Elements(features));
    Criterion(c.id, c.text, if sources == [] then features else sources)
  }

  function TiedAll(cs: seq<Criterion>, features: seq<string>): (r: seq<Criterion>)
    ensures |r| == |cs| && forall i :: 0 <= i < |cs| ==> r[i] == Tied(cs[i], features)
  {
    seq(|cs|, i requires 0 <= i < |cs| => Tied(cs[i], features))
  }

  function CriterionIds(cs: seq<Criterion>): (ids: seq<string>)
    ensures |ids| == |cs| && forall i :: 0 <= i < |cs| ==> ids[i] == cs[i].id
  {
    seq(|cs|, i requires 0 <= i < |cs| => cs[i].id)
  }

  function AllIds(spec: AppSpec): seq<string> {
    ItemIds(spec.features) + ItemIds(spec.dataRequirements) + ItemIds(spec.interfaceRequirements)
    + ItemIds(spec.constraints) + CriterionIds(spec.acceptanceCriteria)
  }

  predicate Actionable(spec: AppSpec) {
    spec.openQuestions != [] || (spec.features != [] && spec.acceptanceCriteria != [])
  }

  // The check after the fields: content or questions, unique ids, criteria that name features.
  function Settle(spec: AppSpec): Option<AppSpec> {
    if !Actionable(spec) || !Distinct(AllIds(spec)) then None
    else Some(spec.(acceptanceCriteria := TiedAll(spec.acceptanceCriteria, ItemIds(spec.features))))
  }

  function FromDrafts(raw: RawSpec, lists: seq<seq<Draft>>): Option<AppSpec>
    requires |lists| == 5
  {
    var f, d, u, c, a := ToItems(lists[0]), ToItems(lists[1]), ToItems(lists[2]), ToItems(lists[3]), ToCriteria(lists[4]);
    if f.None? || d.None? || u.None? || c.None? || a.None? then None
    else Settle(AppSpec(raw.goal, raw.targetUsers, f.value, d.value, u.value, c.value, a.value, raw.openQuestions))
  }

  function Parse(raw: RawSpec, digest: string -> string): Option<AppSpec> {
    var lists := CoerceGroups(Groups(raw), digest);
    if lists.None? then None else FromDrafts(raw, lists.value)
  }

  // ---- writing a document out again

  function DumpDraft(d: Draft, withSources: bool): Value {
    if withSources then Obj(map["id" := Str(d.id), "text" := Str(d.text), "source_ids" := List(d.sources)])
    else Obj(map["id" := Str(d.id), "text" := Str(d.text)])
  }

  function DumpDrafts(ds: seq<Draft>, withSources: bool): (vs: seq<Value>)
    ensures |vs| == |ds| && forall i :: 0 <= i < |ds| ==> vs[i] == DumpDraft(ds[i], withSources)
  {
    seq(|ds|, i requires 0 <= i < |ds| => DumpDraft(ds[i], withSources))
  }

  function ItemDrafts(items: seq<Item>): (ds: seq<Draft>)
    ensures |ds| == |items| && forall i :: 0 <= i < |items| ==> ds[i] == Draft(items[i].id, items[i].text, [])
  {
    seq(|items|, i requires 0 <= i < |items| => Draft(items[i].id, items[i].text, []))
  }

  function Strings(ids: seq<string>): (vs: seq<Value>)
    ensures |vs| == |ids| && forall i :: 0 <= i < |ids| ==> vs[i] == Str(ids[i])
  {
    seq(|ids|, i requires 0 <= i < |ids| => Str(ids[i]))
  }

  function CriterionDrafts(cs: seq<Criterion>): (ds: seq<Draft>)
    ensures |ds| == |cs| && forall i :: 0 <= i < |cs| ==> ds[i] == Draft(cs[i].id, cs[i].text, Strings(cs[i].sourceIds))
  {
    seq(|cs|, i requires 0 <= i < |cs| => Draft(cs[i].id, cs[i].text, Strings(cs[i].sourceIds)))
  }

  function Lists(spec: AppSpec): seq<seq<Draft>> {
    [ItemDrafts(spec.features), ItemDrafts(spec.dataRequirements), ItemDrafts(spec.interfaceRequirements),
     ItemDrafts(spec.constraints), CriterionDrafts(spec.acceptanceCriteria)]
  }

  function DumpList(ds: seq<Draft>, withSources: bool): Option<Value> {
    Some(List(DumpDrafts(ds, withSources)))
  }

  function Dump(spec: AppSpec): RawSpec {
    var lists := Lists(spec);
    RawSpec(spec.goal, spec.targetUsers, DumpList(lists[0], false), DumpList(lists[1], false), DumpList(lists[2], false),
            DumpList(lists[3], false), DumpList(lists[4], true), spec.openQuestions)
  }

  // ---- a well-formed item with a free id comes through coercion as it is

  lemma {:induction false} ValidIdIsClean(id: string)
    requires ValidId(id)
    ensures CleanId(Str(id)) == id && Strip(id) == id
  {
    assert !IsSpace(id[0]) && !IsSpace(id[|id| - 1]);
    assert Underscored(id) == id;
  }

  lemma {:induction false} DumpFields(d: Draft, withSources: bool)
    ensures var fields := DumpDraft(d, withSources).fields;
            && Get(fields, "id") == Str(d.id) && Titled(fields) == Str(d.text)
            && (withSources ==> Get(fields, "source_ids") == List(d.sources))
  {
  }

  lemma {:induction false} DumpedItemCoerces(d: Draft, prefix: string, index: nat, used: set<string>, withSources: bool, digest: string -> string)
    requires ValidId(d.id) && d.id !in used && Strip(d.text) == d.text && (!withSources ==> d.sources == [])
    ensures CoerceItem(DumpDraft(d, withSources), prefix, index, used, withSources, digest) == Some(d)
  {
    ValidIdIsClean(d.id);
    DumpFields(d, withSources);
  }

  ghost predicate Dumpable(ds: seq<Draft>, withSources: bool) {
    forall i :: 0 <= i < |ds| ==> Strip(ds[i].text) == ds[i].text && (!withSources ==> ds[i].sources == [])
  }

  // The group is the written-out form of these drafts.
  ghost predicate DumpOf(g: Group, ds: seq<Draft>) {
    g.value == DumpList(ds, g.withSources) && |ds| <= MAX_LIST && Dumpable(ds, g.withSources)
  }

  lemma {:induction false} DumpedListCoerces(g: Group, ds: seq<Draft>, used: set<string>, digest: string -> string)
    requires DumpOf(g, ds) && Unique(ds, used)
    ensures CoerceList(g, used, digest) == Some(ds)
  {
    var vs, one := DumpDrafts(ds, g.withSources), ItemCoercer(g, digest);
    forall k: nat | k < |ds|
      ensures DrawnAt(vs, used, one, DraftId(), ds, k)
    {
      assert FreeAt(ds, used, k);
      DumpedItemCoerces(ds[k], g.prefix, k, used + IdsOf(ds[..k], DraftId()), g.withSources, digest);
    }
    DrawIsEach(vs, used, one, DraftId(), ds);
  }

  lemma {:induction false} DumpedGroupsCoerce(gs: seq<Group>, lists: seq<seq<Draft>>, digest: string -> string)
    requires |gs| == |lists| && AllUnique(lists) && forall i :: 0 <= i < |gs| ==> DumpOf(gs[i], lists[i])
    ensures CoerceGroups(gs, digest) == Some(lists)
  {
    forall k: nat | k < |gs|
      ensures DrawnAt(gs, {}, ListCoercer(digest), ListIds(), lists, k)
    {
      var used := IdsOf(lists[..k], ListIds());
      assert {} + used == used && UniqueAt(lists, k);
      DumpedListCoerces(gs[k], lists[k], used, digest);
    }
    DrawIsEach(gs, {}, ListCoercer(digest), ListIds(), lists);
  }

  // ---- distinct ids, seen as one sequence

  function DraftIdSeq(ds: seq<Draft>): (ids: seq<string>)
    ensures |ids| == |ds| && forall i :: 0 <= i < |ds| ==> ids[i] == ds[i].id
  {
    seq(|ds|, i requires 0 <= i < |ds| => ds[i].id)
  }

  function Flat(lists: seq<seq<Draft>>): seq<string> {
    if lists == [] then [] else Flat(lists[..|lists| - 1]) + DraftIdSeq(lists[|lists| - 1])
  }

  lemma {:induction false} IdsOfIsSeq(ds: seq<Draft>, id: string)
    ensures id in IdsOf(ds, DraftId()) <==> id in DraftIdSeq(ds)
  {
    if id in IdsOf(ds, DraftId()) {
      var k := IdsOfSource(ds, DraftId(), id);
      assert DraftIdSeq(ds)[k] == id;
    }
    if id in DraftIdSeq(ds) {
      var k :| 0 <= k < |ds| && DraftIdSeq(ds)[k] == id;
      IdsOfMember(ds, DraftId(), k);
    }
  }

  lemma {:induction false} PoolIsFlat(lists: seq<seq<Draft>>, id: string)
    ensures id in IdsOf(lists, ListIds()) <==> id in Flat(lists)
    decreases |lists|
  {
    if lists != [] {
      PoolIsFlat(lists[..|lists| - 1], id);
      IdsOfIsSeq(lists[|lists| - 1], id);
    }
  }

  lemma {:induction false} DistinctParts(a: seq<string>, b: seq<string>)
    ensures Distinct(a + b) <==> Distinct(a) && Distinct(b) && forall x :: x in b ==> x !in a
  {
    var c := a + b;
    if Distinct(c) {
      assert forall i, j :: 0 <= i < j < |a| ==> a[i] == c[i] && a[j] == c[j];
      forall i, j | 0 <= i < j < |b|
        ensures b[i] != b[j]
      {
        assert c[|a| + i] == b[i] && c[|a| + j] == b[j];
      }
      forall i, j | 0 <= i < |a| && 0 <= j < |b|
        ensures a[i] != b[j]
      {
        assert c[i] == a[i] && c[|a| + j] == b[j];
      }
    }
    if Distinct(a) && Distinct(b) && forall x :: x in b ==> x !in a {
      forall i, j | 0 <= i < j < |c|
        ensures c[i] != c[j]
      {
        if j < |a| {
          assert c[i] == a[i] && c[j] == a[j];
        } else if i < |a| {
          assert c[i] == a[i] && c[j] == b[j - |a|] && b[j - |a|] in b && a[i] in a;
        } else {
          assert c[i] == b[i - |a|] && c[j] == b[j - |a|];
        }
      }
    }
  }

  lemma {:induction false} UniqueIsDistinct(ds: seq<Draft>, used: set<string>)
    requires AllValid(ds)
    ensures Unique(ds, used) <==> Distinct(DraftIdSeq(ds)) && forall i :: 0 <= i < |ds| ==> ds[i].id !in used
  {
    var ids := DraftIdSeq(ds);
    forall k: nat | k < |ds|
      ensures FreeAt(ds, used, k) <==> ds[k].id !in used && forall i :: 0 <= i < k ==> ids[i] != ids[k]
    {
      IdsOfIsSeq(ds[..k], ds[k].id);
      assert DraftIdSeq(ds[..k]) == ids[..k];
    }
    if Unique(ds, used) {
      forall i, j | 0 <= i < j < |ids|
        ensures ids[i] != ids[j]
      {
        assert FreeAt(ds, used, j);
      }
    }
  }

  /** The ids of a document are unique list by list exactly when they are distinct as a whole. */
  lemma {:induction false} AllUniqueIsDistinct(lists: seq<seq<Draft>>)
    requires forall k :: 0 <= k < |lists| ==> AllValid(lists[k])
    ensures AllUnique(lists) <==> Distinct(Flat(lists))
    decreases |lists|
  {
    if lists != [] {
      var n := |lists| - 1;
      var front, last := lists[..n], lists[n];
      AllUniqueIsDistinct(front);
      DistinctParts(Flat(front), DraftIdSeq(last));
      UniqueIsDistinct(last, IdsOf(front, ListIds()));
      LastListFree(front, last);
      forall k: nat | k < n
        ensures UniqueAt(lists, k) <==> UniqueAt(front, k)
      {
        assert front[..k] == lists[..k];
      }
      assert AllUnique(lists) <==> AllUnique(front) && UniqueAt(lists, n);
    }
  }

  lemma {:induction false} LastListFree(front: seq<seq<Draft>>, last: seq<Draft>)
    ensures (forall i :: 0 <= i < |last| ==> last[i].id !in IdsOf(front, ListIds())) <==>
            forall x :: x in DraftIdSeq(last) ==> x !in Flat(front)
  {
    forall i | 0 <= i < |last|
      ensures last[i].id in IdsOf(front, ListIds()) <==> last[i].id in Flat(front)
    {
      PoolIsFlat(front, last[i].id);
    }
    var ids := DraftIdSeq(last);
    assert forall i :: 0 <= i < |last| ==> ids[i] in ids;
  }

  // ---------------------------------------------------------------- theorems about documents

  predicate ItemOk(x: Item) {
    ValidId(x.id) && ValidText(x.text)
  }

  predicate CriterionOk(c: Criterion) {
    ValidId(c.id) && ValidText(c.text) && |c.sourceIds| <= MAX_LIST && forall k :: 0 <= k < |c.sourceIds| ==> ValidId(c.sourceIds[k])
  }

  predicate ItemsOk(items: seq<Item>) {
    |items| <= MAX_LIST && forall i :: 0 <= i < |items| ==> ItemOk(items[i])
  }

  predicate CriteriaOk(cs: seq<Criterion>) {
    |cs| <= MAX_LIST && forall i :: 0 <= i < |cs| ==> CriterionOk(cs[i])
  }

  // What the field types of a document demand.
  predicate SpecOk(spec: AppSpec) {
    && ItemsOk(spec.features) && ItemsOk(spec.dataRequirements) && ItemsOk(spec.interfaceRequirements)
    && ItemsOk(spec.constraints) && CriteriaOk(spec.acceptanceCriteria)
  }

  lemma {:induction false} FilteredAll(ids: seq<string>, features: set<string>)
    requires forall x :: x in ids ==> x in features
    ensures Filtered(ids, features) == ids
    decreases |ids|
  {
    if ids != [] {
      var front, last := ids[..|ids| - 1], ids[|ids| - 1];
      assert last in ids && ids == front + [last];
      forall x | x in front
        ensures x in features
      {
        assert x in ids;
      }
      FilteredAll(front, features);
    }
  }

  lemma {:induction false} TiedTwice(c: Criterion, features: seq<string>)
    ensures Tied(Tied(c, features), features) == Tied(c, features)
  {
    FilteredAll(Tied(c, features).sourceIds, Elements(features));
  }

  lemma {:induction false} SettleTwice(spec: AppSpec)
    requires Settle(spec).Some?
    ensures Settle(Settle(spec).value) == Settle(spec)
  {
    var r, features := Settle(spec).value, ItemIds(spec.features);
    assert CriterionIds(r.acceptanceCriteria) == CriterionIds(spec.acceptanceCriteria);
    forall i | 0 <= i < |spec.acceptanceCriteria|
      ensures Tied(r.acceptanceCriteria[i], features) == r.acceptanceCriteria[i]
    {
      TiedTwice(spec.acceptanceCriteria[i], features);
    }
    assert TiedAll(r.acceptanceCriteria, features) == r.acceptanceCriteria;
  }

  lemma {:induction false} FlatIsAllIds(spec: AppSpec)
    ensures Flat(Lists(spec)) == AllIds(spec)
  {
    var lists := Lists(spec);
    assert DraftIdSeq(lists[0]) == ItemIds(spec.features) && DraftIdSeq(lists[1]) == ItemIds(spec.dataRequirements);
    assert DraftIdSeq(lists[2]) == ItemIds(spec.interfaceRequirements) && DraftIdSeq(lists[3]) == ItemIds(spec.constraints);
    assert DraftIdSeq(lists[4]) == CriterionIds(spec.acceptanceCriteria);
    FlatOfFive(lists);
  }

  lemma {:induction false} FlatOfFive(lists: seq<seq<Draft>>)
    requires |lists| == 5
    ensures Flat(lists) == DraftIdSeq(lists[0]) + DraftIdSeq(lists[1]) + DraftIdSeq(lists[2]) + DraftIdSeq(lists[3]) + DraftIdSeq(lists[4])
  {
    FlatSnoc(lists[..0], lists[0]);
    FlatSnoc(lists[..1], lists[1]);
    FlatSnoc(lists[..2], lists[2]);
    FlatSnoc(lists[..3], lists[3]);
    FlatSnoc(lists[..4], lists[4]);
    assert lists[..1] == lists[..0] + [lists[0]] && lists[..2] == lists[..1] + [lists[1]];
    assert lists[..3] == lists[..2] + [lists[2]] && lists[..4] == lists[..3] + [lists[3]];
    assert lists == lists[..4] + [lists[4]];
  }

  lemma {:induction false} FlatSnoc(lists: seq<seq<Draft>>, ds: seq<Draft>)
    ensures Flat(lists + [ds]) == Flat(lists) + DraftIdSeq(ds)
  {
    assert (lists + [ds])[..|lists|] == lists;
  }

  lemma {:induction false} ItemDraftsOk(items: seq<Item>)
    requires ItemsOk(items)
    ensures AllValid(ItemDrafts(items)) && Dumpable(ItemDrafts(items), false) && ToItems(ItemDrafts(items)) == Some(items)
  {
    var ds := ItemDrafts(items);
    assert forall i :: 0 <= i < |items| ==> ItemOk(items[i]);
    assert ToItems(ds).value == items;
  }

  lemma {:induction false} CriterionDraftsOk(cs: seq<Criterion>)
    requires CriteriaOk(cs)
    ensures AllValid(CriterionDrafts(cs)) && Dumpable(CriterionDrafts(cs), true) && ToCriteria(CriterionDrafts(cs)) == Some(cs)
  {
    var ds := CriterionDrafts(cs);
    forall i | 0 <= i < |cs|
      ensures DraftOk(ds[i]) && SourceIds(ds[i].sources) == cs[i].sourceIds
    {
      assert CriterionOk(cs[i]);
      forall k | 0 <= k < |cs[i].sourceIds|
        ensures Strip(cs[i].sourceIds[k]) == cs[i].sourceIds[k]
      {
        ValidIdIsClean(cs[i].sourceIds[k]);
      }
    }
    assert ToCriteria(ds).value == cs;
  }

  lemma {:induction false} DumpCoerces(spec: AppSpec, digest: string -> string)
    requires SpecOk(spec) && Distinct(AllIds(spec))
    ensures CoerceGroups(Groups(Dump(spec)), digest) == Some(Lists(spec))
  {
    var gs, lists := Groups(Dump(spec)), Lists(spec);
    ItemDraftsOk(spec.features);
    ItemDraftsOk(spec.dataRequirements);
    ItemDraftsOk(spec.interfaceRequirements);
    ItemDraftsOk(spec.constraints);
    CriterionDraftsOk(spec.acceptanceCriteria);
    FlatIsAllIds(spec);
    AllUniqueIsDistinct(lists);
    DumpedGroupsCoerce(gs, lists, digest);
  }

  lemma {:induction false} ListsMakeSpec(spec: AppSpec)
    requires SpecOk(spec)
    ensures FromDrafts(Dump(spec), Lists(spec)) == Settle(spec)
  {
    ItemDraftsOk(spec.features);
    ItemDraftsOk(spec.dataRequirements);
    ItemDraftsOk(spec.interfaceRequirements);
    ItemDraftsOk(spec.constraints);
    CriterionDraftsOk(spec.acceptanceCriteria);
  }

  /**
   * Reading a written-out document gives the same document exactly when the document has content or
   * questions, ids that are unique across all of its lists, and criteria that already name features.
   */
  lemma {:induction false} UnchangedIffSettled(spec: AppSpec, digest: string -> string)
    requires SpecOk(spec)
    ensures Parse(Dump(spec), digest) == Some(spec) <==> Settle(spec) == Some(spec)
  {
    if Settle(spec) == Some(spec) {
      DumpCoerces(spec, digest);
      ListsMakeSpec(spec);
    }
    if Parse(Dump(spec), digest) == Some(spec) {
      var pre := Unsettled(Dump(spec), digest);
      SettleTwice(pre);
    }
  }

  // The document before its criteria are tied.
  lemma {:induction false} Unsettled(raw: RawSpec, digest: string -> string) returns (pre: AppSpec)
    requires Parse(raw, digest).Some?
    ensures Parse(raw, digest) == Settle(pre) && SpecOk(pre)
  {
    var gs, lists := Groups(raw), CoerceGroups(Groups(raw), digest).value;
    pre := AppSpec(raw.goal, raw.targetUsers, ToItems(lists[0]).value, ToItems(lists[1]).value, ToItems(lists[2]).value,
                   ToItems(lists[3]).value, ToCriteria(lists[4]).value, raw.openQuestions);
    forall k: nat | k < 5
      ensures |lists[k]| <= MAX_LIST
    {
      ListDrawnAt(gs, digest, lists, k);
      CoercedLength(gs[k], IdsOf(lists[..k], ListIds()), digest);
    }
    forall i | 0 <= i < |lists[4]|
      ensures CriterionOk(pre.acceptanceCriteria[i])
    {
      assert DraftOk(lists[4][i]);
    }
  }

  lemma {:induction false} CoercedLength(g: Group, used: set<string>, digest: string -> string)
    requires CoerceList(g, used, digest).Some?
    ensures |CoerceList(g, used, digest).value| <= MAX_LIST
  {
  }

  /** Normalisation is idempotent: a parsed document, written out and parsed again, is the same. */
  lemma {:induction false} ParsingIsIdempotent(raw: RawSpec, digest: string -> string)
    requires Parse(raw, digest).Some?
    ensures Parse(Dump(Parse(raw, digest).value), digest) == Parse(raw, digest)
  {
    var pre := Unsettled(raw, digest);
    var spec := Parse(raw, digest).value;
    SettleTwice(pre);
    forall i | 0 <= i < |spec.acceptanceCriteria|
      ensures CriterionOk(spec.acceptanceCriteria[i])
    {
      assert CriterionOk(pre.acceptanceCriteria[i]);
      TiedIsOk(pre.acceptanceCriteria[i], pre.features);
    }
    UnchangedIffSettled(spec, digest);
  }

  lemma {:induction false} TiedIsOk(c: Criterion, features: seq<Item>)
    requires CriterionOk(c) && ItemsOk(features)
    ensures CriterionOk(Tied(c, ItemIds(features)))
  {
    var r, ids := Tied(c, ItemIds(features)), ItemIds(features);
    forall k | 0 <= k < |r.sourceIds|
      ensures ValidId(r.sourceIds[k])
    {
      var x := r.sourceIds[k];
      if Filtered(c.sourceIds, Elements(ids)) == [] {
        assert ItemOk(features[k]) && x == features[k].id;
      } else {
        assert x in Filtered(c.sourceIds, Elements(ids));
        var j :| 0 <= j < |c.sourceIds| && c.sourceIds[j] == x;
      }
    }
  }

  /** The check for repeated ids refuses a coerced document exactly when a retry loop would not have ended. */
  lemma {:induction false} NoRepeatedIds(raw: RawSpec, digest: string -> string)
    requires HexDigest(digest) && CoerceGroups(Groups(raw), digest).Some?
    ensures Distinct(Flat(CoerceGroups(Groups(raw), digest).value)) <==> DocumentLeaves(Groups(raw), digest)
  {
    CoercedIdsAreUnique(Groups(raw), digest);
    AllUniqueIsDistinct(CoerceGroups(Groups(raw), digest).value);
  }
}
