/**
  Queued input receipts read from the canonical items of a Thread. The items are evidence: one
  original queued item per client id, and then at most one admission or cancellation of it.
 */
module QueueReceipts {
  import opened Identifiers
  import opened Wrappers

  const MAX_SNAPSHOT_ITEMS := 10_000
  const MAX_READ_IDS := 4096

  datatype ThreadRef = ThreadRef(application: string, project: string, threadId: string)

  /** A property of a native item: absent or null, a text, or a value of another type. */
  datatype Field = Missing | Text(value: string) | NotText

  /** `input` is the fingerprint of the item's content, or None where the content is refused. */
  datatype Item =
    | NotAMapping
    | Item(thread: Field, id: Field, client: Field, kind: Field, deliveryMode: Field,
           queuedItemId: Field, turnId: Field, input: Option<string>)

  datatype ReceiptState = Queued | Admitted(turnId: string) | Cancelled

  datatype Receipt = Receipt(
    thread: ThreadRef, client: string, queuedItemId: string, fingerprint: string, state: ReceiptState)

  /** A read is refused with a contract violation, or finds a receipt, or finds no queued input. */
  datatype Reading = Refused | Read(receipt: Option<Receipt>)

  predicate IsIdentifier(field: Field) {
    field.Text? && !IsBlank(field.value) && |field.value| <= MAX_IDENTIFIER
  }

  predicate ValidThread(thread: ThreadRef) {
    ValidIdentifier(thread.application) && ValidIdentifier(thread.project) && ValidIdentifier(thread.threadId)
  }

  predicate OwnItem(item: Item, thread: ThreadRef) {
    item.Item? && item.thread == Text(thread.threadId) && IsIdentifier(item.id)
  }

  // ---- Selecting items, independently of their order ----

  datatype Query = OfId(id: Field) | OfClient(client: string) | OfKind(client: string, kind: string)

  predicate Matches(item: Item, query: Query) {
    item.Item? &&
    match query
    case OfId(id) => item.id == id
    case OfClient(client) => item.client == Text(client)
    case OfKind(client, kind) => item.client == Text(client) && item.kind == Text(kind)
  }

  function Select(items: seq<Item>, query: Query): seq<Item> {
    if items == [] then []
    else
      var earlier := Select(items[..|items| - 1], query);
      var last := items[|items| - 1];
      if Matches(last, query) then earlier + [last] else earlier
  }

  lemma {:induction false} SelectMatches(items: seq<Item>, query: Query)
    ensures forall item :: item in Select(items, query) <==> item in items && Matches(item, query)
    decreases |items|
  {
    if items != [] {
      SelectMatches(items[..|items| - 1], query);
      assert items == items[..|items| - 1] + [items[|items| - 1]];
    }
  }

  lemma {:induction false} SelectAppends(items: seq<Item>, more: seq<Item>, query: Query)
    ensures Select(items + more, query) == Select(items, query) + Select(more, query)
    decreases |more|
  {
    if more == [] {
      assert items + more == items;
    } else {
      SelectAppends(items, more[..|more| - 1], query);
      assert (items + more)[..|items + more| - 1] == items + more[..|more| - 1];
    }
  }

  lemma {:induction false} SelectCounts(items: seq<Item>, query: Query, item: Item)
    ensures multiset(Select(items, query))[item] == if Matches(item, query) then multiset(items)[item] else 0
    decreases |items|
  {
    if items != [] {
      SelectCounts(items[..|items| - 1], query, item);
      assert items == items[..|items| - 1] + [items[|items| - 1]];
    }
  }

  lemma SelectPermutes(items: seq<Item>, other: seq<Item>, query: Query)
    requires multiset(items) == multiset(other)
    ensures multiset(Select(items, query)) == multiset(Select(other, query))
  {
    forall item: Item ensures multiset(Select(items, query))[item] == multiset(Select(other, query))[item] {
      SelectCounts(items, query, item);
      SelectCounts(other, query, item);
    }
  }

  /** Selecting by kind within one client's items loses nothing. */
  lemma {:induction false} SelectWithin(items: seq<Item>, client: string, kind: string)
    ensures Select(Select(items, OfClient(client)), OfKind(client, kind)) == Select(items, OfKind(client, kind))
    decreases |items|
  {
    if items != [] {
      var earlier, last := items[..|items| - 1], items[|items| - 1];
      SelectWithin(earlier, client, kind);
      SelectAppends(Select(earlier, OfClient(client)), [last], OfKind(client, kind));
    }
  }

  // ---- What a snapshot says about one client id ----

  predicate DistinctIds(items: seq<Item>)
    requires forall item | item in items :: item.Item?
  {
    forall i, j | 0 <= i < j < |items| :: items[i].id != items[j].id
  }

  predicate Canonical(items: seq<Item>, thread: ThreadRef) {
    (forall item | item in items :: OwnItem(item, thread)) && DistinctIds(items)
  }

  predicate CompleteSnapshot(items: seq<Item>, thread: ThreadRef) {
    |items| <= MAX_SNAPSHOT_ITEMS && Canonical(items, thread)
  }

  function QueuedOf(items: seq<Item>, client: string): seq<Item> {
    Select(items, OfKind(client, "user_message_queued"))
  }

  function AdmittedOf(items: seq<Item>, client: string): seq<Item> { Select(items, OfKind(client, "user_message")) }

  function CancelledOf(items: seq<Item>, client: string): seq<Item> {
    Select(items, OfKind(client, "user_message_queue_cancelled"))
  }

  predicate AtMostOneEach(items: seq<Item>, client: string) {
    |QueuedOf(items, client)| <= 1 && |AdmittedOf(items, client)| <= 1 && |CancelledOf(items, client)| <= 1
  }

  predicate QueuedByHuman(queued: seq<Item>) {
    forall item | item in queued :: item.Item? && item.deliveryMode == Missing
  }

  /** The receipt that the selected items establish. */
  function Lineage(thread: ThreadRef, client: string, queued: seq<Item>, admitted: seq<Item>,
      cancelled: seq<Item>): Reading
    requires forall item | item in queued :: item.Item? && IsIdentifier(item.id)
    requires forall item | item in admitted :: item.Item?
    requires forall item | item in cancelled :: item.Item?
  {
    if queued == [] then
      if admitted == [] && cancelled == [] then Read(None) else Refused
    else
      assert queued[0] in queued && IsIdentifier(queued[0].id);
      if queued[0].input.None? || !ValidThread(thread) || !ValidIdentifier(client) then Refused
      else
        var receipt := Receipt(thread, client, queued[0].id.value, queued[0].input.value, Queued);
        if cancelled != [] then
          assert cancelled[0] in cancelled;
          if admitted == [] && cancelled[0].queuedItemId == queued[0].id
          then Read(Some(receipt.(state := Cancelled))) else Refused
        else if admitted != [] then
          assert admitted[0] in admitted;
          if IsIdentifier(admitted[0].turnId)
          then Read(Some(receipt.(state := Admitted(admitted[0].turnId.value)))) else Refused
        else Read(Some(receipt))
  }

  predicate Plausible(items: seq<Item>, thread: ThreadRef, client: string) {
    && IsIdentifier(Text(client)) && CompleteSnapshot(items, thread)
    && AtMostOneEach(items, client) && QueuedByHuman(QueuedOf(items, client))
  }

  lemma SelectedAreOwn(items: seq<Item>, thread: ThreadRef, query: Query)
    requires Canonical(items, thread)
    ensures forall item | item in Select(items, query) :: OwnItem(item, thread) && Matches(item, query)
  {
    SelectMatches(items, query);
  }

  function ReadFor(items: seq<Item>, thread: ThreadRef, client: string): Reading {
    if !Plausible(items, thread, client) then Refused
    else
      SelectedAreOwn(items, thread, OfKind(client, "user_message_queued"));
      SelectedAreOwn(items, thread, OfKind(client, "user_message"));
      SelectedAreOwn(items, thread, OfKind(client, "user_message_queue_cancelled"));
      Lineage(thread, client, QueuedOf(items, client), AdmittedOf(items, client), CancelledOf(items, client))
  }

  // ---- Reordering ----

  predicate AtMostOne(items: seq<Item>, id: Field) { |Select(items, OfId(id))| <= 1 }

  lemma DistinctIdsAsCounts(items: seq<Item>)
    requires forall item | item in items :: item.Item?
    ensures DistinctIds(items) <==> forall id: Field :: AtMostOne(items, id)
  {
    if DistinctIds(items) {
      forall id: Field ensures AtMostOne(items, id) { DistinctSelectsOne(items, id); }
    } else {
      var i, j :| 0 <= i < j < |items| && items[i].id == items[j].id;
      RepeatedSelectsTwo(items, i, j);
      assert !AtMostOne(items, items[i].id);
    }
  }

  lemma {:induction false} DistinctSelectsOne(items: seq<Item>, id: Field)
    requires forall item | item in items :: item.Item?
    requires DistinctIds(items)
    ensures |Select(items, OfId(id))| <= 1
    decreases |items|
  {
    if items != [] {
      var earlier, last := items[..|items| - 1], items[|items| - 1];
      DistinctSelectsOne(earlier, id);
      if last.id == id {
        NothingSelected(earlier, OfId(id));
      }
    }
  }

  lemma {:induction false} NothingSelected(items: seq<Item>, query: Query)
    requires forall item | item in items :: !Matches(item, query)
    ensures Select(items, query) == []
    decreases |items|
  {
    if items != [] {
      NothingSelected(items[..|items| - 1], query);
      assert items[|items| - 1] in items;
    }
  }

  lemma RepeatedSelectsTwo(items: seq<Item>, i: nat, j: nat)
    requires forall item | item in items :: item.Item?
    requires i < j < |items| && items[i].id == items[j].id
    ensures |Select(items, OfId(items[i].id))| >= 2
  {
    var query := OfId(items[i].id);
    assert items == items[..j] + items[j..];
    SelectAppends(items[..j], items[j..], query);
    SelectMatches(items[..j], query);
    SelectMatches(items[j..], query);
    assert items[i] == items[..j][i] && items[i] in items[..j];
    assert items[j] == items[j..][0] && items[j] in items[j..];
    assert items[i] in Select(items[..j], query);
    assert items[j] in Select(items[j..], query);
  }

  lemma CanonicalPermutes(items: seq<Item>, other: seq<Item>, thread: ThreadRef)
    requires multiset(items) == multiset(other) && Canonical(items, thread)
    ensures Canonical(other, thread)
  {
    forall item | item in other ensures item in items { assert item in multiset(other); }
    DistinctIdsAsCounts(items);
    DistinctIdsAsCounts(other);
    forall id: Field ensures AtMostOne(other, id) {
      assert AtMostOne(items, id);
      SelectPermutes(items, other, OfId(id));
      assert |multiset(Select(items, OfId(id)))| == |multiset(Select(other, OfId(id)))|;
    }
  }

  lemma ShortSelectionsAgree(items: seq<Item>, other: seq<Item>, query: Query)
    requires multiset(items) == multiset(other)
    ensures |Select(items, query)| == |Select(other, query)|
    ensures |Select(items, query)| <= 1 ==> Select(items, query) == Select(other, query)
    ensures forall item :: item in Select(items, query) <==> item in Select(other, query)
  {
    SelectPermutes(items, other, query);
    var a, b := Select(items, query), Select(other, query);
    assert |multiset(a)| == |a| && |multiset(b)| == |b|;
    forall item ensures item in a <==> item in b { assert item in multiset(a) <==> item in multiset(b); }
    if |a| == 1 { assert a[0] in b; }
  }

  /** Reordering the items changes no reading. */
  lemma OrderIsIrrelevant(items: seq<Item>, other: seq<Item>, thread: ThreadRef, client: string)
    requires multiset(items) == multiset(other)
    ensures ReadFor(items, thread, client) == ReadFor(other, thread, client)
  {
    assert |multiset(items)| == |items| && |multiset(other)| == |other|;
    if Canonical(items, thread) {
      CanonicalPermutes(items, other, thread);
    } else if Canonical(other, thread) {
      CanonicalPermutes(other, items, thread);
    }
    ShortSelectionsAgree(items, other, OfKind(client, "user_message_queued"));
    ShortSelectionsAgree(items, other, OfKind(client, "user_message"));
    ShortSelectionsAgree(items, other, OfKind(client, "user_message_queue_cancelled"));
  }

  // ---- One client's items are enough ----

  lemma {:induction false} SelectKeepsDistinct(items: seq<Item>, query: Query)
    requires (forall item | item in items :: item.Item?) && DistinctIds(items)
    ensures |Select(items, query)| <= |items|
    ensures (forall item | item in Select(items, query) :: item.Item?) && DistinctIds(Select(items, query))
    decreases |items|
  {
    SelectMatches(items, query);
    if items != [] {
      var earlier, last := items[..|items| - 1], items[|items| - 1];
      SelectKeepsDistinct(earlier, query);
      SelectMatches(earlier, query);
      var kept := Select(earlier, query);
      forall i | 0 <= i < |kept| ensures kept[i].id != last.id {
        assert kept[i] in earlier;
      }
    }
  }

  /** Reading only the items of one client id gives what the full list gives, provided the full list is canonical. */
  lemma GroupIsEnough(items: seq<Item>, thread: ThreadRef, client: string)
    requires CompleteSnapshot(items, thread)
    ensures ReadFor(Select(items, OfClient(client)), thread, client) == ReadFor(items, thread, client)
  {
    SelectKeepsDistinct(items, OfClient(client));
    SelectMatches(items, OfClient(client));
    SelectWithin(items, client, "user_message_queued");
    SelectWithin(items, client, "user_message");
    SelectWithin(items, client, "user_message_queue_cancelled");
  }

  // ---- Later snapshots ----

  /** A receipt keeps its identity and leaves QUEUED at most once. */
  predicate Follows(earlier: Receipt, later: Receipt) {
    && later.thread == earlier.thread && later.client == earlier.client
    && later.queuedItemId == earlier.queuedItemId && later.fingerprint == earlier.fingerprint
    && (earlier.state != Queued ==> later.state == earlier.state)
  }

  /**
    If a snapshot and an extension of it are both accepted, a receipt found in the first is found in
    the second with the same queued item and fingerprint, and an ADMITTED Turn or CANCELLED state is final.
   */
  lemma LineageIsMonotone(items: seq<Item>, more: seq<Item>, thread: ThreadRef, client: string)
    requires ReadFor(items, thread, client).Read? && ReadFor(items + more, thread, client).Read?
    requires ReadFor(items, thread, client).receipt.Some?
    ensures ReadFor(items + more, thread, client).receipt.Some?
    ensures Follows(ReadFor(items, thread, client).receipt.value, ReadFor(items + more, thread, client).receipt.value)
  {
    SelectAppends(items, more, OfKind(client, "user_message_queued"));
    SelectAppends(items, more, OfKind(client, "user_message"));
    SelectAppends(items, more, OfKind(client, "user_message_queue_cancelled"));
  }

  // ---- The two readers ----

  /** A prefix of an acceptable snapshot is acceptable, so a violation found on the way is final. */
  lemma PrefixPlausible(items: seq<Item>, n: nat, thread: ThreadRef, client: string)
    requires n <= |items| && Plausible(items, thread, client)
    ensures Plausible(items[..n], thread, client)
  {
    assert items == items[..n] + items[n..];
    SelectAppends(items[..n], items[n..], OfKind(client, "user_message_queued"));
    SelectAppends(items[..n], items[n..], OfKind(client, "user_message"));
    SelectAppends(items[..n], items[n..], OfKind(client, "user_message_queue_cancelled"));
  }

  lemma CanonicalExtends(items: seq<Item>, item: Item, thread: ThreadRef)
    requires Canonical(items, thread) && OwnItem(item, thread)
    requires forall other | other in items :: other.id != item.id
    ensures Canonical(items + [item], thread)
  {
    var longer := items + [item];
    forall other | other in longer ensures OwnItem(other, thread) { assert other in items || other == item; }
    assert forall i | 0 <= i < |longer| :: longer[i] in longer;
    forall i, j | 0 <= i < j < |longer| ensures longer[i].id != longer[j].id {
      assert longer[i] in items;
    }
  }

  /** For one client id at a time: the receipt is Read for every id or the whole batch is refused. */
  predicate BatchAccepted(items: seq<Item>, thread: ThreadRef, clients: seq<string>) {
    && |clients| <= MAX_READ_IDS && CompleteSnapshot(items, thread)
    && forall client | client in clients :: ReadFor(items, thread, client).Read?
  }

  function AsSeq(item: Option<Item>): seq<Item> { if item.Some? then [item.value] else [] }

  /** The matching items up to and including position i. */
  lemma SelectNext(items: seq<Item>, i: nat, query: Query)
    requires i < |items|
    ensures items[..i + 1] == items[..i] + [items[i]]
    ensures Select(items[..i + 1], query)
            == if Matches(items[i], query) then Select(items[..i], query) + [items[i]] else Select(items[..i], query)
  {
    assert items[..i + 1][..i] == items[..i];
  }

  predicate FiledUnder(before: Option<Item>, after: Option<Item>, item: Item, query: Query) {
    if Matches(item, query) then before.None? && after == Some(item) else after == before
  }

  /** What the reader holds after the given items, when none of them was refused. */
  ghost predicate Filed(items: seq<Item>, thread: ThreadRef, client: string,
                        queued: Option<Item>, admitted: Option<Item>, cancelled: Option<Item>)
  {
    && Canonical(items, thread) && QueuedByHuman(QueuedOf(items, client))
    && AsSeq(queued) == QueuedOf(items, client)
    && AsSeq(admitted) == AdmittedOf(items, client)
    && AsSeq(cancelled) == CancelledOf(items, client)
  }

  lemma FiledNext(items: seq<Item>, i: nat, thread: ThreadRef, client: string,
                  queued: Option<Item>, admitted: Option<Item>, cancelled: Option<Item>,
                  queued': Option<Item>, admitted': Option<Item>, cancelled': Option<Item>)
    requires i < |items| && Filed(items[..i], thread, client, queued, admitted, cancelled)
    requires OwnItem(items[i], thread) && forall other | other in items[..i] :: other.id != items[i].id
    requires Matches(items[i], OfKind(client, "user_message_queued")) ==> items[i].deliveryMode == Missing
    requires FiledUnder(queued, queued', items[i], OfKind(client, "user_message_queued"))
    requires FiledUnder(admitted, admitted', items[i], OfKind(client, "user_message"))
    requires FiledUnder(cancelled, cancelled', items[i], OfKind(client, "user_message_queue_cancelled"))
    ensures Filed(items[..i + 1], thread, client, queued', admitted', cancelled')
  {
    CanonicalExtends(items[..i], items[i], thread);
    SelectNext(items, i, OfKind(client, "user_message_queued"));
    SelectNext(items, i, OfKind(client, "user_message"));
    SelectNext(items, i, OfKind(client, "user_message_queue_cancelled"));
  }

  /**
    Files an item of the client under its kind; refused if the kind is taken, or the queued item has a delivery mode.
   */
  method FileItem(item: Item, client: string, queued: Option<Item>, admitted: Option<Item>, cancelled: Option<Item>)
    returns (filed: bool, queued': Option<Item>, admitted': Option<Item>, cancelled': Option<Item>)
    requires item.Item? && item.client == Text(client)
    ensures !filed ==>
              || (item.kind == Text("user_message_queued") && (queued.Some? || item.deliveryMode != Missing))
              || (item.kind == Text("user_message") && admitted.Some?)
              || (item.kind == Text("user_message_queue_cancelled") && cancelled.Some?)
    ensures filed ==>
              && (item.kind == Text("user_message_queued") ==> item.deliveryMode == Missing)
              && FiledUnder(queued, queued', item, OfKind(client, "user_message_queued"))
              && FiledUnder(admitted, admitted', item, OfKind(client, "user_message"))
              && FiledUnder(cancelled, cancelled', item, OfKind(client, "user_message_queue_cancelled"))
  {
    filed, queued', admitted', cancelled' := true, queued, admitted, cancelled;
    if item.kind == Text("user_message_queued") {
      if queued.Some? || item.deliveryMode != Missing {
        filed := false;
      }
      queued' := Some(item);
    } else if item.kind == Text("user_message") {
      if admitted.Some? {
        filed := false;
      }
      admitted' := Some(item);
    } else if item.kind == Text("user_message_queue_cancelled") {
      if cancelled.Some? {
        filed := false;
      }
      cancelled' := Some(item);
    }
  }

  lemma RefusedByPrefix(items: seq<Item>, n: nat, thread: ThreadRef, client: string)
    requires n <= |items| && !Plausible(items[..n], thread, client)
    ensures ReadFor(items, thread, client) == Refused
  {
    if Plausible(items, thread, client) {
      PrefixPlausible(items, n, thread, client);
    }
  }

  lemma NextIsRefused(items: seq<Item>, i: nat, thread: ThreadRef, client: string)
    requires i < |items| && OwnItem(items[i], thread) && items[i].client == Text(client)
    requires
      || (items[i].kind == Text("user_message_queued")
          && (QueuedOf(items[..i], client) != [] || items[i].deliveryMode != Missing))
      || (items[i].kind == Text("user_message") && AdmittedOf(items[..i], client) != [])
      || (items[i].kind == Text("user_message_queue_cancelled") && CancelledOf(items[..i], client) != [])
    ensures ReadFor(items, thread, client) == Refused
  {
    SelectNext(items, i, OfKind(client, "user_message_queued"));
    SelectNext(items, i, OfKind(client, "user_message"));
    SelectNext(items, i, OfKind(client, "user_message_queue_cancelled"));
    if items[i].kind == Text("user_message_queued") {
      assert items[i] in QueuedOf(items[..i + 1], client);
    }
    RefusedByPrefix(items, i + 1, thread, client);
  }

  method ReadQueuedReceipt(items: seq<Item>, thread: ThreadRef, client: string) returns (reading: Reading)
    ensures reading == ReadFor(items, thread, client)
  {
    if !IsIdentifier(Text(client)) || |items| > MAX_SNAPSHOT_ITEMS {
      return Refused;
    }
    var queued, admitted, cancelled: Option<Item> := None, None, None;
    var identities: set<Field> := {};
    for i := 0 to |items|
      invariant identities == set item | item in items[..i] && item.Item? :: item.id
      invariant Filed(items[..i], thread, client, queued, admitted, cancelled)
    {
      var item := items[i];
      if !OwnItem(item, thread) || item.id in identities {
        NotCanonical(items, i, thread);
        return Refused;
      }
      assert items[..i + 1] == items[..i] + [item];
      identities := identities + {item.id};
      ghost var before := (queued, admitted, cancelled);
      if item.client == Text(client) {
        var filed: bool;
        filed, queued, admitted, cancelled := FileItem(item, client, queued, admitted, cancelled);
        if !filed {
          NextIsRefused(items, i, thread, client);
          return Refused;
        }
      }
      FiledNext(items, i, thread, client, before.0, before.1, before.2, queued, admitted, cancelled);
    }
    assert items[..|items|] == items;
    SelectedAreOwn(items, thread, OfKind(client, "user_message_queued"));
    SelectedAreOwn(items, thread, OfKind(client, "user_message"));
    SelectedAreOwn(items, thread, OfKind(client, "user_message_queue_cancelled"));
    reading := Lineage(thread, client, AsSeq(queued), AsSeq(admitted), AsSeq(cancelled));
  }

  /** The receipts of a batch, position by position. */
  function BatchResults(items: seq<Item>, thread: ThreadRef, clients: seq<string>): seq<Option<Receipt>>
    requires forall client | client in clients :: ReadFor(items, thread, client).Read?
  {
    seq(|clients|, i requires 0 <= i < |clients| =>
      assert clients[i] in clients;
      ReadFor(items, thread, clients[i]).receipt)
  }

  /** One pass groups the items by requested client id. */
  method GroupItems(items: seq<Item>, thread: ThreadRef, clients: seq<string>)
    returns (requested: Option<map<string, seq<Item>>>)
    ensures requested.Some? <==> Canonical(items, thread)
    ensures requested.Some? ==> Grouped(requested.value, items, clients)
  {
    var groups: map<string, seq<Item>> := map client | client in clients :: [];
    var identities: set<Field> := {};
    for i := 0 to |items|
      invariant Canonical(items[..i], thread)
      invariant identities == set item | item in items[..i] && item.Item? :: item.id
      invariant Grouped(groups, items[..i], clients)
    {
      var item := items[i];
      if !OwnItem(item, thread) || item.id in identities {
        NotCanonical(items, i, thread);
        return None;
      }
      identities := identities + {item.id};
      CanonicalExtends(items[..i], item, thread);
      assert items[..i + 1] == items[..i] + [item];
      GroupNext(groups, items, i, clients);
      if item.client.Text? && item.client.value in groups {
        groups := groups[item.client.value := groups[item.client.value] + [item]];
      }
    }
    assert items[..|items|] == items;
    requested := Some(groups);
  }

  predicate Grouped(groups: map<string, seq<Item>>, items: seq<Item>, clients: seq<string>) {
    groups == map client | client in clients :: Select(items, OfClient(client))
  }

  lemma GroupNext(groups: map<string, seq<Item>>, items: seq<Item>, i: nat, clients: seq<string>)
    requires i < |items| && items[i].Item? && Grouped(groups, items[..i], clients)
    ensures var item := items[i];
            Grouped(if item.client.Text? && item.client.value in groups
                    then groups[item.client.value := groups[item.client.value] + [item]] else groups,
                    items[..i + 1], clients)
  {
    forall client | client in clients
      ensures Select(items[..i + 1], OfClient(client))
              == if items[i].client == Text(client) then Select(items[..i], OfClient(client)) + [items[i]]
                 else Select(items[..i], OfClient(client))
    {
      SelectNext(items, i, OfClient(client));
    }
  }

  lemma NotCanonical(items: seq<Item>, i: nat, thread: ThreadRef)
    requires i < |items| && forall item | item in items[..i] :: item.Item?
    requires OwnItem(items[i], thread) ==> exists item | item in items[..i] :: item.id == items[i].id
    ensures !Canonical(items, thread)
  {
    if OwnItem(items[i], thread) {
      var item :| item in items[..i] && item.id == items[i].id;
      var j :| 0 <= j < i && items[..i][j] == item;
      assert items[j].id == items[i].id;
    } else {
      assert items[i] in items;
    }
  }

  /**
    The batch reader: one pass over the items, then one read of each group.  It is accepted exactly if
    the single read of the full list is accepted for every id, and then gives the same receipts.
   */
  method ReadQueuedReceipts(items: seq<Item>, thread: ThreadRef, clients: seq<string>)
    returns (results: Option<seq<Option<Receipt>>>)
    ensures results.Some? <==> BatchAccepted(items, thread, clients)
    ensures results.Some? ==> results.value == BatchResults(items, thread, clients)
  {
    if |clients| > MAX_READ_IDS {
      return None;
    }
    for i := 0 to |clients|
      invariant forall j | 0 <= j < i :: IsIdentifier(Text(clients[j]))
    {
      if !IsIdentifier(Text(clients[i])) {
        assert clients[i] in clients && ReadFor(items, thread, clients[i]) == Refused;
        return None;
      }
    }
    if |items| > MAX_SNAPSHOT_ITEMS {
      return None;
    }
    var requested := GroupItems(items, thread, clients);
    if requested.None? {
      return None;
    }
    var receipts: map<string, Option<Receipt>> := map[];
    for i := 0 to |clients|
      invariant forall client | client in clients[..i] :: client in receipts
      invariant forall client | client in receipts :: ReadFor(items, thread, client) == Read(receipts[client])
    {
      var client := clients[i];
      assert client in clients;
      if client !in receipts {
        GroupIsEnough(items, thread, client);
        var reading := ReadQueuedReceipt(requested.value[client], thread, client);
        if reading.Refused? {
          return None;
        }
        receipts := receipts[client := reading.receipt];
      }
    }
    assert clients[..|clients|] == clients;
    assert forall i | 0 <= i < |clients| :: clients[i] in clients;
    results := Some(seq(|clients|, i requires 0 <= i < |clients| => receipts[clients[i]]));
  }

  /**
    For at least one id the batch is accepted exactly if every single read is: the snapshot needs no check of its
    own.
   */
  lemma BatchAcceptedAsSingles(items: seq<Item>, thread: ThreadRef, clients: seq<string>)
    requires 0 < |clients| <= MAX_READ_IDS
    ensures BatchAccepted(items, thread, clients)
            <==> forall i | 0 <= i < |clients| :: ReadFor(items, thread, clients[i]).Read?
  {
    if forall i | 0 <= i < |clients| :: ReadFor(items, thread, clients[i]).Read? {
      assert ReadFor(items, thread, clients[0]).Read?;
      forall client | client in clients ensures ReadFor(items, thread, client).Read? {
        var i :| 0 <= i < |clients| && clients[i] == client;
      }
    }
    forall i | 0 <= i < |clients| ensures clients[i] in clients {}
  }

  /** Batches too are read alike from reordered items. */
  lemma BatchOrderIsIrrelevant(items: seq<Item>, other: seq<Item>, thread: ThreadRef, clients: seq<string>)
    requires multiset(items) == multiset(other)
    ensures BatchAccepted(items, thread, clients) <==> BatchAccepted(other, thread, clients)
    ensures BatchAccepted(items, thread, clients)
            ==> BatchResults(items, thread, clients) == BatchResults(other, thread, clients)
  {
    assert |multiset(items)| == |items| && |multiset(other)| == |other|;
    if Canonical(items, thread) {
      CanonicalPermutes(items, other, thread);
    } else if Canonical(other, thread) {
      CanonicalPermutes(other, items, thread);
    }
    forall client | client in clients ensures ReadFor(other, thread, client) == ReadFor(items, thread, client) {
      OrderIsIrrelevant(items, other, thread, client);
    }
    assert forall i | 0 <= i < |clients| :: clients[i] in clients;
  }
}
