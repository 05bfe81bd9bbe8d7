/**
 * The four ways the sync engine changes its message list, as functions on
 * sequences: dedup-by-id append, upsert, remove-by-id and clear. The central
 * invariant is that no two messages in the list share an id.
 */
module MessageList {
  import opened Wrappers
  import opened ChatMessages

  /** The ids of the list, in order. */
  function Ids(ms: seq<ChatMessage>): (r: seq<string>)
    ensures |r| == |ms|
    ensures forall i | 0 <= i < |ms| :: r[i] == ms[i].id
  {
    seq(|ms|, i requires 0 <= i < |ms| => ms[i].id)
  }

  /** No two entries share an id. */
  predicate UniqueIds(ms: seq<ChatMessage>) {
    forall i, j | 0 <= i < j < |ms| :: ms[i].id != ms[j].id
  }

  /** How many entries carry `id`. */
  function CountId(ms: seq<ChatMessage>, id: string): (n: nat)
    ensures n <= |ms|
    ensures n == 0 <==> id !in Ids(ms)
  {
    if ms == [] then 0
    else
      assert Ids(ms) == [ms[0].id] + Ids(ms[1..]);
      (if ms[0].id == id then 1 else 0) + CountId(ms[1..], id)
  }

  /** `messages.firstIndex(where: { $0.id == id })` */
  function FirstIndexOf(ms: seq<ChatMessage>, id: string): (r: Option<nat>)
    ensures r.None? <==> id !in Ids(ms)
    ensures r.Some? ==> r.value < |ms| && ms[r.value].id == id
    ensures r.Some? ==> forall k | 0 <= k < r.value :: ms[k].id != id
  {
    if ms == [] then None
    else if ms[0].id == id then Some(0)
    else
      assert Ids(ms) == [ms[0].id] + Ids(ms[1..]);
      match FirstIndexOf(ms[1..], id)
      case Some(i) => Some(i + 1)
      case None => None
  }

  /**
   * The send path: `if !messages.contains(where: { $0.id == m.id }) { messages.append(m) }`.
   */
  function AppendIfAbsent(ms: seq<ChatMessage>, m: ChatMessage): (r: seq<ChatMessage>)
    ensures ms <= r && |r| <= |ms| + 1
    ensures m.id in Ids(r)
  {
    if m.id in Ids(ms) then ms
    else
      assert Ids(ms + [m])[|ms|] == m.id;
      ms + [m]
  }

  /**
   * The feed insert/update path: replace the first entry with `m`'s id in
   * place, or append `m` when there is none.
   */
  function Upsert(ms: seq<ChatMessage>, m: ChatMessage): (r: seq<ChatMessage>)
    ensures |ms| <= |r| <= |ms| + 1
    ensures m in r
  {
    match FirstIndexOf(ms, m.id)
    case Some(i) =>
      assert ms[i := m][i] == m;
      ms[i := m]
    case None =>
      assert (ms + [m])[|ms|] == m;
      ms + [m]
  }

  /** `messages.removeAll { $0.id == id }` */
  function RemoveById(ms: seq<ChatMessage>, id: string): (r: seq<ChatMessage>)
    ensures |r| <= |ms|
    ensures forall k | 0 <= k < |r| :: r[k].id != id
  {
    if ms == [] then []
    else if ms[0].id == id then RemoveById(ms[1..], id)
    else [ms[0]] + RemoveById(ms[1..], id)
  }

  /** Removal keeps exactly the entries with another id. */
  lemma {:induction false} RemoveByIdMembers(ms: seq<ChatMessage>, id: string)
    ensures forall m :: m in RemoveById(ms, id) <==> m in ms && m.id != id
  {
    if ms != [] {
      RemoveByIdMembers(ms[1..], id);
      assert ms == [ms[0]] + ms[1..];
    }
  }

  /** Removing an id that is not in the list changes nothing. */
  lemma {:induction false} RemoveByIdAbsent(ms: seq<ChatMessage>, id: string)
    requires id !in Ids(ms)
    ensures RemoveById(ms, id) == ms
  {
    if ms != [] {
      assert Ids(ms)[0] == ms[0].id;
      assert Ids(ms[1..]) == Ids(ms)[1..];
      RemoveByIdAbsent(ms[1..], id);
      assert ms == [ms[0]] + ms[1..];
    }
  }

  /**
   * A store-confirmed send grows the list by at most one entry, keeps what was
   * there as a prefix, leaves the message's id present, and keeps ids unique.
   */
  lemma AppendIfAbsentSpec(ms: seq<ChatMessage>, m: ChatMessage)
    requires UniqueIds(ms)
    ensures var r := AppendIfAbsent(ms, m);
      && UniqueIds(r)
      && |ms| <= |r| <= |ms| + 1
      && r[..|ms|] == ms
      && m.id in Ids(r)
      && (|r| == |ms| + 1 <==> m.id !in Ids(ms))
      && (|r| == |ms| + 1 ==> r[|ms|] == m)
  {
    var r := AppendIfAbsent(ms, m);
    if m.id !in Ids(ms) {
      assert Ids(r)[|ms|] == m.id;
      forall i, j | 0 <= i < j < |r| ensures r[i].id != r[j].id {
        if j == |ms| {
          assert Ids(ms)[i] == r[i].id;
        }
      }
    }
  }

  /**
   * A feed insert or update keeps ids unique. When the id is present the entry
   * is replaced at the same index with every other entry and the length kept;
   * otherwise the message is appended at the end.
   */
  lemma UpsertSpec(ms: seq<ChatMessage>, m: ChatMessage)
    requires UniqueIds(ms)
    ensures var r := Upsert(ms, m);
      && UniqueIds(r)
      && m.id in Ids(r)
      && (m.id in Ids(ms) ==>
            |r| == |ms| && exists i | 0 <= i < |ms| :: ms[i].id == m.id && r == ms[i := m])
      && (m.id !in Ids(ms) ==> r == ms + [m])
  {
    var r := Upsert(ms, m);
    match FirstIndexOf(ms, m.id)
    case Some(i) =>
      assert Ids(r)[i] == m.id;
      forall p, q | 0 <= p < q < |r| ensures r[p].id != r[q].id {
      }
    case None =>
      assert Ids(r)[|ms|] == m.id;
      forall p, q | 0 <= p < q < |r| ensures r[p].id != r[q].id {
        if q == |ms| {
          assert Ids(ms)[p] == r[p].id;
        }
      }
  }

  /** Every entry after an upsert is the upserted message or was there before. */
  lemma UpsertMembers(ms: seq<ChatMessage>, m: ChatMessage)
    ensures forall x | x in Upsert(ms, m) :: x == m || x in ms
  {
    var r := Upsert(ms, m);
    forall x | x in r ensures x == m || x in ms {
      var k :| 0 <= k < |r| && r[k] == x;
      if x != m {
        assert x == ms[k];
      }
    }
  }

  /** Applying the same feed row twice is the same as applying it once. */
  lemma UpsertIdempotent(ms: seq<ChatMessage>, m: ChatMessage)
    ensures Upsert(Upsert(ms, m), m) == Upsert(ms, m)
  {
    var r := Upsert(ms, m);
    match FirstIndexOf(ms, m.id)
    case Some(i) =>
      assert forall k | 0 <= k < i :: r[k] == ms[k];
      assert FirstIndexOf(r, m.id) == Some(i) by {
        assert r[i] == m;
        assert Ids(r)[i] == m.id;
      }
    case None =>
      assert forall k | 0 <= k < |ms| :: r[k] == ms[k];
      assert Ids(r)[|ms|] == m.id;
  }

  /** In a list with unique ids, the entry replaced by an upsert is the only one with that id. */
  lemma UpsertReplacesOnlyMatch(ms: seq<ChatMessage>, m: ChatMessage, k: nat)
    requires UniqueIds(ms) && k < |ms| && ms[k].id != m.id
    ensures k < |Upsert(ms, m)| && Upsert(ms, m)[k] == ms[k]
  {
  }

  /** Removing concatenated lists removes from each part: removal is a filter. */
  lemma {:induction false} RemoveByIdConcat(a: seq<ChatMessage>, b: seq<ChatMessage>, id: string)
    ensures RemoveById(a + b, id) == RemoveById(a, id) + RemoveById(b, id)
  {
    if a != [] {
      assert (a + b)[0] == a[0];
      assert (a + b)[1..] == a[1..] + b;
      RemoveByIdConcat(a[1..], b, id);
      if a[0].id != id {
        var x, y := RemoveById(a[1..], id), RemoveById(b, id);
        assert [a[0]] + (x + y) == ([a[0]] + x) + y;
      }
    } else {
      assert a + b == b;
    }
  }

  /**
   * Removal keeps the survivors in their original relative order: two kept
   * entries appear in the result in the order they had before.
   */
  lemma RemoveByIdKeepsOrder(ms: seq<ChatMessage>, id: string, i: nat, j: nat)
    requires i < j < |ms| && ms[i].id != id && ms[j].id != id
    ensures exists p, q | 0 <= p < q < |RemoveById(ms, id)| ::
      RemoveById(ms, id)[p] == ms[i] && RemoveById(ms, id)[q] == ms[j]
  {
    var front, back := ms[..j], ms[j..];
    assert ms == front + back;
    RemoveByIdConcat(front, back, id);
    var rf, rb := RemoveById(front, id), RemoveById(back, id);
    assert ms[i] in front;
    RemoveByIdMembers(front, id);
    assert ms[i] in rf;
    assert back == [ms[j]] + back[1..];
    assert rb == [ms[j]] + RemoveById(back[1..], id);
    var p :| 0 <= p < |rf| && rf[p] == ms[i];
    assert (rf + rb)[p] == ms[i];
    assert (rf + rb)[|rf|] == ms[j];
  }

  /** Removal keeps ids unique. */
  lemma {:induction false} RemoveByIdPreservesUnique(ms: seq<ChatMessage>, id: string)
    requires UniqueIds(ms)
    ensures UniqueIds(RemoveById(ms, id))
  {
    if ms != [] {
      RemoveByIdPreservesUnique(ms[1..], id);
      var rest := RemoveById(ms[1..], id);
      if ms[0].id != id {
        RemoveByIdMembers(ms[1..], id);
        forall q | 0 <= q < |rest| ensures rest[q].id != ms[0].id {
          assert rest[q] in ms[1..];
        }
      }
    }
  }

  /** In a list with unique ids, each id occurs at most once. */
  lemma {:induction false} UniqueCount(ms: seq<ChatMessage>, id: string)
    requires UniqueIds(ms)
    ensures CountId(ms, id) == if id in Ids(ms) then 1 else 0
  {
    if ms != [] {
      UniqueCount(ms[1..], id);
      if ms[0].id == id {
        assert id !in Ids(ms[1..]);
      }
    }
  }

  /**
   * The dedup guarantee: whether the store's reply to a send or the change
   * feed's insert for the same message is applied first, the list ends up
   * with exactly one entry with that id.
   */
  lemma SendAndFeedInsertEitherOrder(ms: seq<ChatMessage>, sent: ChatMessage, echoed: ChatMessage)
    requires UniqueIds(ms) && sent.id == echoed.id
    ensures CountId(Upsert(AppendIfAbsent(ms, sent), echoed), sent.id) == 1
    ensures CountId(AppendIfAbsent(Upsert(ms, echoed), sent), sent.id) == 1
  {
    AppendIfAbsentSpec(ms, sent);
    var a := AppendIfAbsent(ms, sent);
    UpsertSpec(a, echoed);
    UniqueCount(Upsert(a, echoed), sent.id);
    UpsertSpec(ms, echoed);
    var u := Upsert(ms, echoed);
    AppendIfAbsentSpec(u, sent);
    UniqueCount(AppendIfAbsent(u, sent), sent.id);
  }
}
