/** The live listings (`dpmbt3` and its copies for the other five classes): the feed's
    records of the class that have a position are gathered into a dictionary keyed by
    label, the labels are sorted by their number, and each vehicle becomes one field of
    an embed, twenty fields to an embed. The request itself is not modelled; its outcome
    is a parameter. */
module LiveListing {
  import opened Wrappers
  import opened PyStr
  import opened Classifier
  import opened Poller
  import Paging

  /** What the dictionary stores for a vehicle; the subtype only in the T3, K2 and KT8D
      listings. */
  datatype Info = Info(line: string, dest: string, trip: string, lat: Json, lon: Json, subtype: Option<string>)

  /** `str(v.get("ID", ""))`: the label a record is listed under. */
  function LabelOf(r: FeedRecord): string
  {
    Str(Get(r, "ID"), "")
  }

  /** The subtype a listing shows for a label, if the listing shows one. */
  function SubtypeOf(cls: VehicleClass, tag: string): Option<string>
  {
    match cls
    case T3 => Some(T3Subtype(tag))
    case K2 => Some(K2Subtype(tag))
    case KT8 => Some(KT8Subtype(tag))
    case _ => None
  }

  /** A record is listed when its label passes the class test and it has a position. */
  predicate Admitted(r: FeedRecord, cls: VehicleClass)
  {
    cls.Matches(LabelOf(r)) && HasPosition(r)
  }

  function InfoOf(r: FeedRecord, cls: VehicleClass): Info
  {
    Info(Str(Get(r, "LineName"), "Ismeretlen"), Str(Get(r, "FinalStopName"), "Ismeretlen"),
         Str(Get(r, "Course"), "Unknown"), Get(r, "Lat"), Get(r, "Lng"), SubtypeOf(cls, LabelOf(r)))
  }

  predicate Distinct(s: seq<string>)
  {
    forall i, j :: 0 <= i < j < |s| ==> s[i] != s[j]
  }

  /** The `active` dictionary: its keys in insertion order, and what each key maps to. */
  datatype Active = Active(order: seq<string>, info: map<string, Info>)

  /** `active[label] = info`: a new key goes to the end, an existing key keeps its place
      and gets the new value. */
  function Put(a: Active, tag: string, info: Info): (r: Active)
    ensures tag in r.info && r.info[tag] == info
    ensures forall x :: x in a.info && x != tag ==> x in r.info && r.info[x] == a.info[x]
    ensures a.order <= r.order && |r.order| <= |a.order| + 1
    ensures Distinct(a.order) && (forall x :: x in a.order <==> x in a.info) ==>
              Distinct(r.order) && (forall x :: x in r.order <==> x in r.info)
  {
    Active(if tag in a.info then a.order else a.order + [tag], a.info[tag := info])
  }

  /** The dictionary after the loop over the feed's records. */
  function ActiveOf(feed: seq<FeedRecord>, cls: VehicleClass): (a: Active)
    ensures Distinct(a.order)
    ensures forall x :: x in a.order <==> x in a.info
    decreases |feed|
  {
    if |feed| == 0 then Active([], map[])
    else
      var a := ActiveOf(feed[..|feed| - 1], cls);
      var r := feed[|feed| - 1];
      if Admitted(r, cls) then Put(a, LabelOf(r), InfoOf(r, cls)) else a
  }

  /** The loop of a live command over the feed's records. */
  method CollectActive(vehicles: seq<FeedRecord>, cls: VehicleClass) returns (order: seq<string>, info: map<string, Info>)
    ensures Active(order, info) == ActiveOf(vehicles, cls)
  {
    order, info := [], map[];
    for i := 0 to |vehicles|
      invariant Active(order, info) == ActiveOf(vehicles[..i], cls)
    {
      var v := vehicles[i];
      assert vehicles[..i + 1][..i] == vehicles[..i];
      var vehicleLabel := Str(Get(v, "ID"), "");
      var tripId := Str(Get(v, "Course"), "Unknown");
      var line := Str(Get(v, "LineName"), "Ismeretlen");
      var dest := Str(Get(v, "FinalStopName"), "Ismeretlen");
      var lat, lon := Get(v, "Lat"), Get(v, "Lng");
      if !cls.Matches(vehicleLabel) {
        continue;
      }
      if lat == Absent || lat == Null || lon == Absent || lon == Null {
        continue;
      }
      var subtype := SubtypeOf(cls, vehicleLabel);
      if vehicleLabel !in info {
        order := order + [vehicleLabel];
      }
      info := info[vehicleLabel := Info(line, dest, tripId, lat, lon, subtype)];
    }
    assert vehicles[..|vehicles|] == vehicles;
  }

  /** Every record that passes the class test and has a position is listed under its label. */
  lemma {:induction false} ListedRecordActive(feed: seq<FeedRecord>, cls: VehicleClass, i: nat)
    requires i < |feed| && Admitted(feed[i], cls)
    ensures LabelOf(feed[i]) in ActiveOf(feed, cls).info
    decreases |feed|
  {
    var init := feed[..|feed| - 1];
    if i < |init| {
      assert init[i] == feed[i];
      ListedRecordActive(init, cls, i);
    }
  }

  /** Every label in the dictionary comes from a record that passes the class test and has
      a position. */
  lemma {:induction false} ActiveLabelListed(feed: seq<FeedRecord>, cls: VehicleClass, tag: string)
    requires tag in ActiveOf(feed, cls).info
    ensures exists i :: 0 <= i < |feed| && Admitted(feed[i], cls) && LabelOf(feed[i]) == tag
    decreases |feed|
  {
    var init, r := feed[..|feed| - 1], feed[|feed| - 1];
    if Admitted(r, cls) && LabelOf(r) == tag {
      assert feed[|feed| - 1] == r;
    } else {
      ActiveLabelListed(init, cls, tag);
      var i :| 0 <= i < |init| && Admitted(init[i], cls) && LabelOf(init[i]) == tag;
      assert feed[i] == init[i];
    }
  }

  /** The last record listed under a label is the one the dictionary keeps. */
  lemma {:induction false} ActiveLastWins(feed: seq<FeedRecord>, cls: VehicleClass, j: nat)
    requires j < |feed| && Admitted(feed[j], cls)
    requires forall i :: j < i < |feed| && Admitted(feed[i], cls) ==> LabelOf(feed[i]) != LabelOf(feed[j])
    ensures LabelOf(feed[j]) in ActiveOf(feed, cls).info
    ensures ActiveOf(feed, cls).info[LabelOf(feed[j])] == InfoOf(feed[j], cls)
    decreases |feed|
  {
    var init := feed[..|feed| - 1];
    if j < |feed| - 1 {
      assert init[j] == feed[j];
      forall i | j < i < |init| && Admitted(init[i], cls)
        ensures LabelOf(init[i]) != LabelOf(init[j])
      {
        assert init[i] == feed[i];
      }
      ActiveLastWins(init, cls, j);
    }
  }

  /** Record `i` is the first admitted record with its label: the one whose assignment
      creates the key. */
  predicate FirstListed(feed: seq<FeedRecord>, cls: VehicleClass, i: int)
  {
    0 <= i < |feed| && Admitted(feed[i], cls) &&
    forall j :: 0 <= j < i && Admitted(feed[j], cls) ==> LabelOf(feed[j]) != LabelOf(feed[i])
  }

  /** A label no admitted record carries is not a key. */
  lemma {:induction false} UnlistedLabelAbsent(feed: seq<FeedRecord>, cls: VehicleClass, tag: string)
    requires forall k :: 0 <= k < |feed| && Admitted(feed[k], cls) ==> LabelOf(feed[k]) != tag
    ensures tag !in ActiveOf(feed, cls).info
    decreases |feed|
  {
    if |feed| > 0 {
      var init := feed[..|feed| - 1];
      forall k | 0 <= k < |init| && Admitted(init[k], cls)
        ensures LabelOf(init[k]) != tag
      {
        assert init[k] == feed[k];
      }
      UnlistedLabelAbsent(init, cls, tag);
    }
  }

  /** The dictionary keeps its keys in insertion order: the label first listed earlier in
      the feed comes earlier in `order`. With `ListedRecordActive`, `ActiveLabelListed` and
      the distinctness of `order`, this fixes `order` completely. */
  lemma {:induction false} ActiveInsertionOrder(feed: seq<FeedRecord>, cls: VehicleClass, i: int, j: int)
    requires i < j && FirstListed(feed, cls, i) && FirstListed(feed, cls, j)
    ensures exists p, q ::
              0 <= p < q < |ActiveOf(feed, cls).order| &&
              ActiveOf(feed, cls).order[p] == LabelOf(feed[i]) && ActiveOf(feed, cls).order[q] == LabelOf(feed[j])
    decreases |feed|
  {
    var init, r := feed[..|feed| - 1], feed[|feed| - 1];
    var a := ActiveOf(init, cls);
    var o := ActiveOf(feed, cls).order;
    assert init[i] == feed[i];
    if j < |feed| - 1 {
      assert init[j] == feed[j];
      assert FirstListed(init, cls, i) && FirstListed(init, cls, j);
      ActiveInsertionOrder(init, cls, i, j);
      var p, q :| 0 <= p < q < |a.order| && a.order[p] == LabelOf(feed[i]) && a.order[q] == LabelOf(feed[j]);
      assert a.order <= o;
      assert 0 <= p < q < |o| && o[p] == LabelOf(feed[i]) && o[q] == LabelOf(feed[j]);
    } else {
      var x := LabelOf(r);
      forall k | 0 <= k < |init| && Admitted(init[k], cls)
        ensures LabelOf(init[k]) != x
      {
        assert init[k] == feed[k];
      }
      UnlistedLabelAbsent(init, cls, x);
      assert o == a.order + [x];
      ListedRecordActive(init, cls, i);
      var p :| 0 <= p < |a.order| && a.order[p] == LabelOf(feed[i]);
      assert 0 <= p < |a.order| < |o| && o[p] == LabelOf(feed[i]) && o[|a.order|] == LabelOf(feed[j]);
    }
  }

  /** Every listed label passes the class test, so `int(label)` is defined for it. */
  lemma {:induction false} ActiveLabelsMatch(feed: seq<FeedRecord>, cls: VehicleClass)
    ensures forall x :: x in ActiveOf(feed, cls).info ==> cls.Matches(x) && ParseInt(x).Some?
    decreases |feed|
  {
    if |feed| > 0 {
      ActiveLabelsMatch(feed[..|feed| - 1], cls);
      var r := feed[|feed| - 1];
      if Admitted(r, cls) {
        MatchesParses(cls, LabelOf(r));
      }
    }
  }

  /** `if not active`: the dictionary is empty exactly when it has no keys in order. */
  lemma OrderEmptyIff(a: Active)
    requires forall x :: x in a.order <==> x in a.info
    ensures a.order == [] <==> a.info == map[]
  {
    if a.order != [] {
      assert a.order[0] in a.info;
    }
    if a.info != map[] {
      var x :| x in a.info;
      assert x in a.order;
    }
  }

  /** The sort key `int(label)`; only labels that parse are ever sorted. */
  function NumKey(tag: string): int
  {
    ParseInt(tag).GetOr(0)
  }

  /** A label with its sort key, which `sorted` computes once per element. */
  datatype Keyed = Keyed(key: int, tag: string)

  function Decorate(labels: seq<string>): (r: seq<Keyed>)
    ensures |r| == |labels| && forall i :: 0 <= i < |r| ==> r[i] == Keyed(NumKey(labels[i]), labels[i])
  {
    seq(|labels|, i requires 0 <= i < |labels| => Keyed(NumKey(labels[i]), labels[i]))
  }

  function Tags(s: seq<Keyed>): (r: seq<string>)
    ensures |r| == |s| && forall i :: 0 <= i < |r| ==> r[i] == s[i].tag
  {
    seq(|s|, i requires 0 <= i < |s| => s[i].tag)
  }

  predicate SortedByKey(s: seq<Keyed>)
  {
    forall i, j :: 0 <= i < j < |s| ==> s[i].key <= s[j].key
  }

  /** The elements of `s` whose key is `k`, in their order in `s`. */
  function WithKey(s: seq<Keyed>, k: int): seq<Keyed>
    decreases |s|
  {
    if |s| == 0 then []
    else WithKey(s[..|s| - 1], k) + (if s[|s| - 1].key == k then [s[|s| - 1]] else [])
  }

  lemma {:induction false} WithKeyAppend(a: seq<Keyed>, b: seq<Keyed>, k: int)
    ensures WithKey(a + b, k) == WithKey(a, k) + WithKey(b, k)
    decreases |b|
  {
    if |b| == 0 {
      assert a + b == a;
    } else {
      var b' := b[..|b| - 1];
      assert (a + b)[..|a + b| - 1] == a + b';
      WithKeyAppend(a, b', k);
    }
  }

  /** The elements picked out have the key and come from the sequence. */
  lemma {:induction false} WithKeyMembers(s: seq<Keyed>, k: int, x: Keyed)
    requires x in WithKey(s, k)
    ensures x in s && x.key == k
    decreases |s|
  {
    var init := s[..|s| - 1];
    if x in WithKey(init, k) {
      WithKeyMembers(init, k, x);
      assert init == s[..|s| - 1];
    }
  }

  lemma {:induction false} WithKeyNone(s: seq<Keyed>, k: int)
    requires forall i :: 0 <= i < |s| ==> s[i].key != k
    ensures WithKey(s, k) == []
    decreases |s|
  {
    if |s| > 0 {
      WithKeyNone(s[..|s| - 1], k);
    }
  }

  /** Inserting after every element whose key is not greater keeps the order sorted. */
  lemma InsertSorted(r: seq<Keyed>, p: nat, x: Keyed)
    requires SortedByKey(r) && p <= |r|
    requires forall q :: 0 <= q < p ==> r[q].key <= x.key
    requires p < |r| ==> x.key < r[p].key
    ensures SortedByKey(r[..p] + [x] + r[p..])
  {
    var s := r[..p] + [x] + r[p..];
    forall i, j | 0 <= i < j < |s|
      ensures s[i].key <= s[j].key
    {
      if j < p {
        assert s[i] == r[i] && s[j] == r[j];
      } else if j == p {
        assert s[i] == r[i];
      } else if i < p {
        assert s[i] == r[i] && s[j] == r[j - 1];
      } else if i == p {
        assert s[j] == r[j - 1];
      } else {
        assert s[i] == r[i - 1] && s[j] == r[j - 1];
      }
    }
  }

  /** ... and puts the new element last among those with its key. */
  lemma InsertLastOfKey(r: seq<Keyed>, p: nat, x: Keyed, k: int)
    requires SortedByKey(r) && p <= |r|
    requires p < |r| ==> x.key < r[p].key
    ensures WithKey(r[..p] + [x] + r[p..], k) == WithKey(r, k) + WithKey([x], k)
  {
    var front, back := r[..p], r[p..];
    assert r == front + back;
    WithKeyAppend(front + [x], back, k);
    WithKeyAppend(front, [x], k);
    WithKeyAppend(front, back, k);
    assert [x][..0] == [];
    if x.key == k {
      AfterInsertPoint(r, p, x);
      WithKeyNone(back, k);
      assert WithKey([x], k) == [x];
      assert WithKey(front + [x] + back, k) == WithKey(front, k) + [x];
      assert WithKey(r, k) == WithKey(front, k);
      assert WithKey(r, k) + WithKey([x], k) == WithKey(front, k) + [x];
    } else {
      assert WithKey([x], k) == [];
      assert WithKey(front, k) + WithKey([x], k) == WithKey(front, k);
      assert WithKey(front + [x], k) == WithKey(front, k);
      assert WithKey(front + [x] + back, k) == WithKey(front, k) + WithKey(back, k);
      assert WithKey(r, k) + WithKey([x], k) == WithKey(r, k);
    }
  }

  lemma AfterInsertPoint(r: seq<Keyed>, p: nat, x: Keyed)
    requires SortedByKey(r) && p <= |r|
    requires p < |r| ==> x.key < r[p].key
    ensures forall i :: 0 <= i < |r[p..]| ==> r[p..][i].key != x.key
  {
    forall i | 0 <= i < |r[p..]|
      ensures r[p..][i].key != x.key
    {
      assert r[p..][i] == r[p + i];
    }
  }

  /** Python's `sorted` with a key: ordered by key, a permutation of its input, and
      stable — elements with the same key keep their relative order. */
  method StableSort(items: seq<Keyed>) returns (r: seq<Keyed>)
    ensures SortedByKey(r)
    ensures multiset(r) == multiset(items)
    ensures forall k :: WithKey(r, k) == WithKey(items, k)
  {
    r := [];
    for i := 0 to |items|
      invariant SortedByKey(r)
      invariant multiset(r) == multiset(items[..i])
      invariant forall k :: WithKey(r, k) == WithKey(items[..i], k)
    {
      assert items[..i + 1] == items[..i] + [items[i]];
      forall k
        ensures WithKey(items[..i + 1], k) == WithKey(items[..i], k) + WithKey([items[i]], k)
      {
        WithKeyAppend(items[..i], [items[i]], k);
      }
      r := InsertByKey(r, items[i]);
    }
    assert items[..|items|] == items;
  }

  /** One step of the sort: `x` goes after every element whose key is not greater. */
  method InsertByKey(r: seq<Keyed>, x: Keyed) returns (r': seq<Keyed>)
    requires SortedByKey(r)
    ensures SortedByKey(r')
    ensures multiset(r') == multiset(r) + multiset{x}
    ensures forall k :: WithKey(r', k) == WithKey(r, k) + WithKey([x], k)
  {
    var p := 0;
    while p < |r| && r[p].key <= x.key
      invariant 0 <= p <= |r|
      invariant forall q :: 0 <= q < p ==> r[q].key <= x.key
    {
      p := p + 1;
    }
    InsertSorted(r, p, x);
    forall k
      ensures WithKey(r[..p] + [x] + r[p..], k) == WithKey(r, k) + WithKey([x], k)
    {
      InsertLastOfKey(r, p, x, k);
    }
    assert r == r[..p] + r[p..];
    r' := r[..p] + [x] + r[p..];
  }

  /** `sorted(active.items(), key=lambda x: int(x[0]))`, keeping the labels. */
  method SortByNumber(labels: seq<string>) returns (r: seq<string>)
    ensures exists s :: StablySorted(s, labels) && r == Tags(s)
  {
    var keyed := StableSort(Decorate(labels));
    r := Tags(keyed);
  }

  /** `s` is the result of a stable sort of the labels by number. */
  ghost predicate StablySorted(s: seq<Keyed>, labels: seq<string>)
  {
    SortedByKey(s) && multiset(s) == multiset(Decorate(labels)) &&
    forall k :: WithKey(s, k) == WithKey(Decorate(labels), k)
  }

  /** A stable sort has exactly one result: two orders sorted by key that agree on the
      elements of every key are the same order. */
  lemma {:induction false} StableSortUnique(a: seq<Keyed>, b: seq<Keyed>)
    requires SortedByKey(a) && SortedByKey(b)
    requires forall k :: WithKey(a, k) == WithKey(b, k)
    ensures a == b
    decreases |a| + |b|
  {
    if |a| > 0 && |b| > 0 {
      var a', b' := a[..|a| - 1], b[..|b| - 1];
      SameLast(a, b);
      var x := a[|a| - 1];
      LastSplit(a);
      LastSplit(b);
      DropLastAgree(a', b', x);
      StableSortUnique(a', b');
    } else {
      EmptyWhenNoKey(a, b);
      EmptyWhenNoKey(b, a);
    }
  }

  lemma LastSplit(s: seq<Keyed>)
    requires |s| > 0
    ensures s == s[..|s| - 1] + [s[|s| - 1]]
  {
  }

  /** Two orders sorted by key that agree on every key end with the same element. */
  lemma SameLast(a: seq<Keyed>, b: seq<Keyed>)
    requires |a| > 0 && |b| > 0 && SortedByKey(a) && SortedByKey(b)
    requires forall k :: WithKey(a, k) == WithKey(b, k)
    ensures a[|a| - 1] == b[|b| - 1]
  {
    var x, y := a[|a| - 1], b[|b| - 1];
    var a', b' := a[..|a| - 1], b[..|b| - 1];
    assert WithKey(a, x.key) == WithKey(a', x.key) + [x];
    assert WithKey(b, y.key) == WithKey(b', y.key) + [y];
    assert y in WithKey(a, y.key);
    assert x in WithKey(b, x.key);
    WithKeyMembers(a, y.key, y);
    WithKeyMembers(b, x.key, x);
    KeyBelowLast(a, y);
    KeyBelowLast(b, x);
    var w := WithKey(a, x.key);
    assert w == WithKey(b, y.key);
    assert w[|w| - 1] == x && w[|w| - 1] == y;
  }

  /** Dropping the same last element from two orders that agree on every key leaves two
      orders that still agree on every key. */
  lemma DropLastAgree(a': seq<Keyed>, b': seq<Keyed>, x: Keyed)
    requires forall k :: WithKey(a' + [x], k) == WithKey(b' + [x], k)
    ensures forall k :: WithKey(a', k) == WithKey(b', k)
  {
    forall k
      ensures WithKey(a', k) == WithKey(b', k)
    {
      WithKeyAppend(a', [x], k);
      WithKeyAppend(b', [x], k);
      var u, v, t := WithKey(a', k), WithKey(b', k), WithKey([x], k);
      assert u + t == v + t;
      assert u == (u + t)[..|u|] && v == (v + t)[..|v|];
    }
  }

  /** In an order sorted by key no element has a key above the last one's. */
  lemma KeyBelowLast(s: seq<Keyed>, x: Keyed)
    requires SortedByKey(s) && |s| > 0 && x in s
    ensures x.key <= s[|s| - 1].key
  {
    var i :| 0 <= i < |s| && s[i] == x;
  }

  /** Agreeing on every key, an order is empty when the other one is. */
  lemma EmptyWhenNoKey(a: seq<Keyed>, b: seq<Keyed>)
    requires forall k :: WithKey(a, k) == WithKey(b, k)
    ensures |b| == 0 ==> |a| == 0
  {
    if |a| > 0 {
      var x := a[|a| - 1];
      assert WithKey(a, x.key) == WithKey(a[..|a| - 1], x.key) + [x];
    }
  }

  /** The sorted labels do not depend on how the sort got there. */
  lemma SortedLabelsDetermined(s1: seq<Keyed>, s2: seq<Keyed>, labels: seq<string>)
    requires StablySorted(s1, labels) && StablySorted(s2, labels)
    ensures Tags(s1) == Tags(s2)
  {
    StableSortUnique(s1, s2);
  }

  /** The sorted labels are the dictionary's labels. */
  lemma SortedTagsListed(s: seq<Keyed>, order: seq<string>, info: map<string, Info>)
    requires StablySorted(s, order) && forall x :: x in order <==> x in info
    ensures forall x :: x in Tags(s) ==> x in info
  {
    forall x | x in Tags(s)
      ensures x in info
    {
      var i :| 0 <= i < |s| && Tags(s)[i] == x;
      assert s[i] in multiset(Decorate(order));
      var j :| 0 <= j < |order| && Decorate(order)[j] == s[i];
    }
  }

  /** One embed field: the label as its name, the stored data as its value. */
  datatype Field = Field(name: string, value: string)

  function FieldValue(i: Info): (r: string)
    ensures i.subtype.Some? ==> StartsWith(r, "Altípus: " + i.subtype.value + "\n")
    ensures i.subtype.None? ==> StartsWith(r, "Vonal: " + i.line + "\n")
    ensures EndsWith(r, "\nCél: " + i.dest)
  {
    (if i.subtype.Some? then "Altípus: " + i.subtype.value + "\n" else "") +
    "Vonal: " + i.line + "\nForgalmi: " + i.trip + "\nCél: " + i.dest
  }

  function FieldsOf(labels: seq<string>, info: map<string, Info>): seq<Field>
    requires forall x :: x in labels ==> x in info
  {
    seq(|labels|, k requires 0 <= k < |labels| => Field(labels[k], FieldValue(info[labels[k]])))
  }

  const ErrorPrefix: string := "❌ Hiba az API lekéréskor: "

  function NoActiveText(cls: VehicleClass): string
  {
    "🚫 Nincs aktív " + (if cls == T3 then "T3-as" else cls.Name()) + " villamos."
  }

  function Title(cls: VehicleClass): string
  {
    "🚋 Aktív " + cls.Name() + " villamosok"
  }

  /** How the request ended: a status other than 200, an exception (a failed request or a
      response that is not JSON), or a decoded body. */
  datatype Response = BadStatus(status: int) | Raised(message: string) | Body(data: Payload)

  /** What a live command sends: one text message, or a run of embeds. */
  datatype Reply = Message(text: string) | Embeds(pages: seq<Paging.Embed<Field>>)

  /** The embeds of a listing: the titles and page sizes of the embed loop, and the fields
      of the dictionary's labels in a stable order by number. */
  ghost predicate IsListing(pages: seq<Paging.Embed<Field>>, cls: VehicleClass, a: Active)
    requires forall x :: x in a.order <==> x in a.info
  {
    |pages| > 0 && pages[0].title == Title(cls) &&
    (forall k :: 0 < k < |pages| ==> pages[k].title == Title(cls) + " (folytatás)") &&
    (forall k :: 0 <= k < |pages| ==> 0 < |pages[k].fields| <= Paging.MaxFields) &&
    (forall k :: 0 <= k < |pages| - 1 ==> |pages[k].fields| == Paging.MaxFields) &&
    exists s :: StablySorted(s, a.order) &&
      (forall x :: x in Tags(s) ==> x in a.info) &&
      Paging.Fields(pages) == FieldsOf(Tags(s), a.info)
  }

  /** A whole live command. */
  method LiveReply(resp: Response, cls: VehicleClass) returns (reply: Reply)
    ensures resp.BadStatus? ==> reply == Message(ErrorPrefix + Decimal(resp.status))
    ensures resp.Raised? ==> reply == Message(ErrorPrefix + resp.message)
    ensures resp.Body? && ActiveOf(VehiclesOf(resp.data), cls).order == [] ==> reply == Message(NoActiveText(cls))
    ensures resp.Body? && ActiveOf(VehiclesOf(resp.data), cls).order != [] ==>
      reply.Embeds? && IsListing(reply.pages, cls, ActiveOf(VehiclesOf(resp.data), cls))
  {
    match resp
    case BadStatus(status) =>
      return Message(ErrorPrefix + Decimal(status));
    case Raised(message) =>
      return Message(ErrorPrefix + message);
    case Body(data) =>
      var order, info := CollectActive(VehiclesOf(data), cls);
      OrderEmptyIff(Active(order, info));
      if info == map[] {
        return Message(NoActiveText(cls));
      }
      var sorted := SortByNumber(order);
      ghost var s :| StablySorted(s, order) && sorted == Tags(s);
      SortedTagsListed(s, order, info);
      var items := FieldsOf(sorted, info);
      var pages := Paging.Paginate(Title(cls), Title(cls) + " (folytatás)", items);
      reply := Embeds(pages);
  }
}
