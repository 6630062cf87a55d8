/** What the report-producing commands compute: the text sent to the
    operator by `-list`, `-glist`, `-dlist`, `-qn` and `-gr`. */
module Reports {
  import opened Options
  import opened Text
  import opened Dict
  import opened Services

  const OnlineHeader: string := "在线好友列表"
  const GroupsHeader: string := "群列表"
  const DiscusHeader: string := "讨论组列表"

  // ---------------------------------------------------------------------
  // -list: online friends by category

  /** `item.status in ["online", "away"]`. */
  predicate IsOnline(f: Friend) { f.status == "online" || f.status == "away" }

  function CategoryPairs(cats: seq<Category>): (p: seq<(int, Category)>)
    ensures |p| == |cats|
  {
    seq(|cats|, i requires 0 <= i < |cats| => (cats[i].index, cats[i]))
  }

  /** The categories by index, as the first loop files them: one entry per
      index, a later category replacing an earlier one with the same index. */
  function CategoryTable(cats: seq<Category>): map<int, Category>
  {
    Assigned(CategoryPairs(cats))
  }

  lemma CategoryTableSnoc(cats: seq<Category>, c: Category)
    ensures CategoryTable(cats + [c]) == CategoryTable(cats)[c.index := c]
  {
    assert CategoryPairs(cats + [c]) == CategoryPairs(cats) + [(c.index, c)];
    AssignedSnoc(CategoryPairs(cats), (c.index, c));
  }

  /** The friends filed under category `k` by the second loop, in roster order:
      exactly the online or away friends whose category is `k`. */
  function Members(info: seq<Friend>, k: int): (r: seq<Friend>)
    ensures forall f :: f in r ==> f in info && IsOnline(f) && f.category == k
    ensures forall f :: f in info && IsOnline(f) && f.category == k ==> f in r
  {
    if info == [] then []
    else
      var f := info[|info| - 1];
      var init := info[..|info| - 1];
      assert info == init + [f];
      Members(init, k) + (if IsOnline(f) && f.category == k then [f] else [])
  }

  /** A value of the category dict: `{"name": ..., "sort": ..., "list": [...]}`. */
  datatype Bucket = Bucket(name: string, sort: int, list: seq<Friend>)

  /** The dict entry for category `k` once every friend has been filed. */
  function BucketOf(t: map<int, Category>, info: seq<Friend>, k: int): Bucket
    requires k in t
  {
    Bucket(t[k].name, t[k].sort, Members(info, k))
  }

  /** Each bucket's sort key is at most the next one's. */
  predicate SortedBySort(bs: seq<Bucket>)
  {
    forall i :: 0 <= i < |bs| - 1 ==> bs[i].sort <= bs[i + 1].sort
  }

  lemma {:induction false} SortedBySortPairs(bs: seq<Bucket>, i: int, j: int)
    requires SortedBySort(bs) && 0 <= i <= j < |bs|
    ensures bs[i].sort <= bs[j].sort
  {
    if i < j {
      SortedBySortPairs(bs, i, j - 1);
    }
  }

  /** Places `b` after every leading bucket whose sort key is not larger. */
  function InsertBySort(b: Bucket, bs: seq<Bucket>): seq<Bucket>
  {
    if bs == [] then [b]
    else if b.sort < bs[0].sort then [b] + bs
    else [bs[0]] + InsertBySort(b, bs[1..])
  }

  /** Insertion into a sorted list keeps it sorted and adds exactly `b`. */
  lemma {:induction false} InsertBySortSorted(b: Bucket, bs: seq<Bucket>)
    requires SortedBySort(bs)
    ensures var r := InsertBySort(b, bs);
      && multiset(r) == multiset(bs) + multiset{b}
      && SortedBySort(r)
      && (r[0] == b || (bs != [] && r[0] == bs[0]))
  {
    if bs != [] && b.sort >= bs[0].sort {
      assert bs == [bs[0]] + bs[1..];
      InsertBySortSorted(b, bs[1..]);
    }
  }

  /** `sorted(lst, key=lambda x: x[0])`: a sorted permutation of its input. */
  function SortBySort(bs: seq<Bucket>): (r: seq<Bucket>)
    ensures multiset(r) == multiset(bs)
    ensures SortedBySort(r)
  {
    if bs == [] then []
    else
      var init, last := bs[..|bs| - 1], bs[|bs| - 1];
      assert bs == init + [last];
      InsertBySortSorted(last, SortBySort(init));
      InsertBySort(last, SortBySort(init))
  }

  /** The buckets of `bs` whose sort key is `key`, in their order in `bs`. */
  function WithSort(bs: seq<Bucket>, key: int): seq<Bucket>
  {
    if bs == [] then []
    else (if bs[0].sort == key then [bs[0]] else []) + WithSort(bs[1..], key)
  }

  lemma {:induction false} WithSortAppend(a: seq<Bucket>, b: seq<Bucket>, key: int)
    ensures WithSort(a + b, key) == WithSort(a, key) + WithSort(b, key)
  {
    if a == [] {
      assert a + b == b;
    } else {
      var c := if a[0].sort == key then [a[0]] else [];
      calc {
        WithSort(a + b, key);
        { assert (a + b)[1..] == a[1..] + b; }
        c + WithSort(a[1..] + b, key);
        { WithSortAppend(a[1..], b, key); }
        c + (WithSort(a[1..], key) + WithSort(b, key));
        (c + WithSort(a[1..], key)) + WithSort(b, key);
      }
    }
  }

  /** A sorted list whose first key is above `key` has no bucket with that key. */
  lemma {:induction false} WithSortAbove(bs: seq<Bucket>, key: int)
    requires SortedBySort(bs) && bs != [] && key < bs[0].sort
    ensures WithSort(bs, key) == []
  {
    if |bs| > 1 {
      WithSortAbove(bs[1..], key);
    }
  }

  lemma WithSortCons(x: Bucket, bs: seq<Bucket>, key: int)
    ensures WithSort([x] + bs, key) == (if x.sort == key then [x] else []) + WithSort(bs, key)
  {
    assert ([x] + bs)[1..] == bs;
  }

  /** Insertion puts the new bucket after every bucket with the same key. */
  lemma {:induction false} InsertBySortStable(b: Bucket, bs: seq<Bucket>, key: int)
    requires SortedBySort(bs)
    ensures WithSort(InsertBySort(b, bs), key) == WithSort(bs, key) + (if b.sort == key then [b] else [])
  {
    if bs == [] {
    } else if b.sort < bs[0].sort {
      InsertFirstStable(b, bs, key);
    } else {
      SortedTail(bs);
      InsertBySortStable(b, bs[1..], key);
      InsertLaterStable(b, bs, key);
    }
  }

  lemma SortedTail(bs: seq<Bucket>)
    requires SortedBySort(bs) && bs != []
    ensures SortedBySort(bs[1..])
  {
  }

  /** A bucket with a smaller key than all goes first and ends its key's run. */
  lemma InsertFirstStable(b: Bucket, bs: seq<Bucket>, key: int)
    requires SortedBySort(bs) && bs != [] && b.sort < bs[0].sort
    ensures WithSort(InsertBySort(b, bs), key) == WithSort(bs, key) + (if b.sort == key then [b] else [])
  {
    assert InsertBySort(b, bs) == [b] + bs;
    WithSortCons(b, bs, key);
    if b.sort == key {
      WithSortAbove(bs, key);
    }
  }

  /** Otherwise the first bucket stays first and `b` goes into the rest. */
  lemma InsertLaterStable(b: Bucket, bs: seq<Bucket>, key: int)
    requires bs != [] && !(b.sort < bs[0].sort)
    requires WithSort(InsertBySort(b, bs[1..]), key) == WithSort(bs[1..], key) + (if b.sort == key then [b] else [])
    ensures WithSort(InsertBySort(b, bs), key) == WithSort(bs, key) + (if b.sort == key then [b] else [])
  {
    var c := if bs[0].sort == key then [bs[0]] else [];
    var t := if b.sort == key then [b] else [];
    var rest := InsertBySort(b, bs[1..]);
    calc {
      WithSort(InsertBySort(b, bs), key);
      { assert InsertBySort(b, bs) == [bs[0]] + rest; }
      WithSort([bs[0]] + rest, key);
      { WithSortCons(bs[0], rest, key); }
      c + WithSort(rest, key);
      c + (WithSort(bs[1..], key) + t);
      (c + WithSort(bs[1..], key)) + t;
      WithSort(bs, key) + t;
    }
  }

  /** `sorted` is stable: the buckets with any one sort key come out in the
      order they went in, which here is the dict's iteration order. */
  lemma {:induction false} SortBySortStable(bs: seq<Bucket>, key: int)
    ensures WithSort(SortBySort(bs), key) == WithSort(bs, key)
  {
    if bs != [] {
      var init, last := bs[..|bs| - 1], bs[|bs| - 1];
      SortBySortStable(init, key);
      InsertBySortStable(last, SortBySort(init), key);
      WithSortSnoc(bs, key);
    }
  }

  lemma WithSortSnoc(bs: seq<Bucket>, key: int)
    requires bs != []
    ensures var last := bs[|bs| - 1];
      WithSort(bs, key) == WithSort(bs[..|bs| - 1], key) + (if last.sort == key then [last] else [])
  {
    var init, last := bs[..|bs| - 1], bs[|bs| - 1];
    assert bs == init + [last];
    WithSortAppend(init, [last], key);
    assert WithSort([last], key) == (if last.sort == key then [last] else []);
  }

  /** `[(x["sort"], x["name"], x["list"]) for x in cate_map.values()]`, the
      buckets in the order the dict is iterated in. */
  function DictBuckets(t: map<int, Category>, info: seq<Friend>, order: seq<int>): (lst: seq<Bucket>)
    requires forall k :: k in order ==> k in t
    ensures |lst| == |order|
  {
    seq(|order|, i requires 0 <= i < |order| => BucketOf(t, info, order[i]))
  }

  /** The buckets in dict order, then sorted: the sections of the report. */
  function OnlineSections(cats: seq<Category>, info: seq<Friend>, order: seq<int>): seq<Bucket>
    requires Enumerates(order, CategoryTable(cats).Keys)
  {
    SortBySort(DictBuckets(CategoryTable(cats), info, order))
  }

  /** A section is the bucket of a category, and every category has one. */
  lemma OnlineSectionsAreBuckets(cats: seq<Category>, info: seq<Friend>, order: seq<int>, b: Bucket)
    requires Enumerates(order, CategoryTable(cats).Keys)
    ensures var t := CategoryTable(cats);
      b in OnlineSections(cats, info, order) <==> exists k :: k in t && b == BucketOf(t, info, k)
  {
    var t := CategoryTable(cats);
    var lst := DictBuckets(t, info, order);
    assert multiset(OnlineSections(cats, info, order)) == multiset(lst);
    assert b in OnlineSections(cats, info, order) <==> b in multiset(lst);
    if b in lst {
      var i :| 0 <= i < |lst| && lst[i] == b;
      assert order[i] in t;
    }
    if exists k :: k in t && b == BucketOf(t, info, k) {
      var k :| k in t && b == BucketOf(t, info, k);
      var i :| 0 <= i < |order| && order[i] == k;
      assert lst[i] == b;
    }
  }

  /** The report has one section per category, empty or not. */
  lemma OnlineSectionsCover(cats: seq<Category>, info: seq<Friend>, order: seq<int>)
    requires Enumerates(order, CategoryTable(cats).Keys)
    ensures var t := CategoryTable(cats); var ss := OnlineSections(cats, info, order);
      && |ss| == |t.Keys|
      && (forall k :: k in t ==> BucketOf(t, info, k) in ss)
  {
    var t := CategoryTable(cats);
    var ss := OnlineSections(cats, info, order);
    assert |ss| == |order| by {
      assert |multiset(ss)| == |multiset(DictBuckets(t, info, order))|;
    }
    EnumeratesCount(order, t.Keys);
    forall k | k in t ensures BucketOf(t, info, k) in ss {
      OnlineSectionsAreBuckets(cats, info, order, BucketOf(t, info, k));
    }
  }

  /** The sections appear in non-decreasing sort order. */
  lemma OnlineSectionsSorted(cats: seq<Category>, info: seq<Friend>, order: seq<int>)
    requires Enumerates(order, CategoryTable(cats).Keys)
    ensures var ss := OnlineSections(cats, info, order);
      forall i, j :: 0 <= i < j < |ss| ==> ss[i].sort <= ss[j].sort
  {
    var ss := OnlineSections(cats, info, order);
    forall i, j | 0 <= i < j < |ss| ensures ss[i].sort <= ss[j].sort {
      SortedBySortPairs(ss, i, j);
    }
  }

  /** Sections that tie on the sort key keep the order the category dict
      listed them in. */
  lemma OnlineSectionsStable(cats: seq<Category>, info: seq<Friend>, order: seq<int>, key: int)
    requires Enumerates(order, CategoryTable(cats).Keys)
    ensures WithSort(OnlineSections(cats, info, order), key)
      == WithSort(DictBuckets(CategoryTable(cats), info, order), key)
  {
    SortBySortStable(DictBuckets(CategoryTable(cats), info, order), key);
  }

  /** A section lists only online or away friends of an existing category. */
  lemma SectionSound(cats: seq<Category>, info: seq<Friend>, order: seq<int>, b: Bucket)
    requires Enumerates(order, CategoryTable(cats).Keys)
    requires b in OnlineSections(cats, info, order)
    ensures forall f :: f in b.list ==> f in info && IsOnline(f) && f.category in CategoryTable(cats)
  {
    var t := CategoryTable(cats);
    OnlineSectionsAreBuckets(cats, info, order, b);
    var k :| k in t && b == BucketOf(t, info, k);
  }

  lemma OnlineSectionsSound(cats: seq<Category>, info: seq<Friend>, order: seq<int>)
    requires Enumerates(order, CategoryTable(cats).Keys)
    ensures var t := CategoryTable(cats); var ss := OnlineSections(cats, info, order);
      forall b, f :: b in ss && f in b.list ==> f in info && IsOnline(f) && f.category in t
  {
    forall b | b in OnlineSections(cats, info, order) {
      SectionSound(cats, info, order, b);
    }
  }

  /** Every online or away friend whose category exists is listed, so only
      those whose category does not exist are dropped. */
  lemma OnlineSectionsComplete(cats: seq<Category>, info: seq<Friend>, order: seq<int>)
    requires Enumerates(order, CategoryTable(cats).Keys)
    ensures var t := CategoryTable(cats); var ss := OnlineSections(cats, info, order);
      forall f :: f in info && IsOnline(f) && f.category in t ==> exists b :: b in ss && f in b.list
  {
    var t := CategoryTable(cats);
    forall f | f in info && IsOnline(f) && f.category in t
      ensures exists b :: b in OnlineSections(cats, info, order) && f in b.list
    {
      OnlineSectionsAreBuckets(cats, info, order, BucketOf(t, info, f.category));
    }
  }

  /** `== name ==`. */
  function Title(name: string): string { "== " + name + " ==" }

  /** A friend shows as `markname(nick)` when it has a markname, else as `nick`. */
  function Nick(f: Friend): string
  {
    if f.markname != "" then f.markname + "(" + f.nick + ")" else f.nick
  }

  /** `(id)nick[status]`. */
  function FriendLine(f: Friend): string { "(" + f.id + ")" + Nick(f) + "[" + f.status + "]" }

  function FriendLines(fs: seq<Friend>): (r: seq<string>)
    ensures |r| == |fs|
  {
    seq(|fs|, i requires 0 <= i < |fs| => FriendLine(fs[i]))
  }

  /** The lines of the sections: each title, then its friends. */
  function SectionLines(ss: seq<Bucket>): seq<string>
  {
    if ss == [] then []
    else
      var b := ss[|ss| - 1];
      SectionLines(ss[..|ss| - 1]) + [Title(b.name)] + FriendLines(b.list)
  }

  /** The lines `list_online_friends` joins into its message. */
  function OnlineReport(cats: seq<Category>, info: seq<Friend>, order: seq<int>): seq<string>
    requires Enumerates(order, CategoryTable(cats).Keys)
  {
    [OnlineHeader] + SectionLines(OnlineSections(cats, info, order))
  }

  /** The first loop of `list_online_friends`: one empty bucket per category index. */
  method CategoryBuckets(cats: seq<Category>) returns (cateMap: map<int, Bucket>)
    ensures cateMap.Keys == CategoryTable(cats).Keys
    ensures forall k :: k in cateMap ==> cateMap[k] == BucketOf(CategoryTable(cats), [], k)
  {
    cateMap := map[];
    var i := 0;
    while i < |cats|
      invariant 0 <= i <= |cats|
      invariant cateMap.Keys == CategoryTable(cats[..i]).Keys
      invariant forall k :: k in cateMap ==> cateMap[k] == BucketOf(CategoryTable(cats[..i]), [], k)
    {
      var cate := cats[i];
      assert cats[..i + 1] == cats[..i] + [cate];
      CategoryTableSnoc(cats[..i], cate);
      cateMap := cateMap[cate.index := Bucket(cate.name, cate.sort, [])];
      i := i + 1;
    }
    assert cats[..|cats|] == cats;
  }

  /** The second loop of `list_online_friends`: each online or away friend is
      appended to the bucket of its category; a friend whose category has no
      bucket raises KeyError, which is logged and skipped. */
  method FileFriends(cateMap0: map<int, Bucket>, info: seq<Friend>, ghost t: map<int, Category>)
    returns (cateMap: map<int, Bucket>)
    requires cateMap0.Keys == t.Keys
    requires forall k :: k in cateMap0 ==> cateMap0[k] == BucketOf(t, [], k)
    ensures cateMap.Keys == t.Keys
    ensures forall k :: k in cateMap ==> cateMap[k] == BucketOf(t, info, k)
  {
    cateMap := cateMap0;
    var j := 0;
    while j < |info|
      invariant 0 <= j <= |info|
      invariant cateMap.Keys == t.Keys
      invariant forall k :: k in cateMap ==> cateMap[k] == BucketOf(t, info[..j], k)
    {
      var item := info[j];
      assert info[..j + 1][..j] == info[..j];
      if item.status == "online" || item.status == "away" {
        if item.category in cateMap {
          var b := cateMap[item.category];
          cateMap := cateMap[item.category := b.(list := b.list + [item])];
        }
      }
      j := j + 1;
    }
    assert info[..|info|] == info;
  }

  /** The last loop of `list_online_friends`: the header, then for each
      section its title and one line per friend. */
  method ReportLines(lst: seq<Bucket>) returns (lines: seq<string>)
    ensures lines == [OnlineHeader] + SectionLines(lst)
  {
    lines := [OnlineHeader];
    var n := 0;
    while n < |lst|
      invariant 0 <= n <= |lst|
      invariant lines == [OnlineHeader] + SectionLines(lst[..n])
    {
      var b := lst[n];
      SectionLinesSnoc(lst, n);
      lines := lines + [Title(b.name)];
      lines := AppendFriendLines(lines, b.list);
      Regroup([OnlineHeader], SectionLines(lst[..n]), [Title(b.name)], FriendLines(b.list));
      n := n + 1;
    }
    assert lst[..n] == lst;
  }

  lemma Regroup(a: seq<string>, b: seq<string>, c: seq<string>, d: seq<string>)
    ensures a + b + c + d == a + (b + c + d)
  {
  }

  /** The inner loop: one line per friend of a section, appended in order. */
  method AppendFriendLines(lines: seq<string>, fs: seq<Friend>) returns (out: seq<string>)
    ensures out == lines + FriendLines(fs)
  {
    out := lines;
    var m := 0;
    while m < |fs|
      invariant 0 <= m <= |fs|
      invariant out == lines + FriendLines(fs[..m])
    {
      FriendLinesSnoc(fs, m);
      out := out + [FriendLine(fs[m])];
      m := m + 1;
    }
    assert fs[..m] == fs;
  }

  lemma SectionLinesSnoc(lst: seq<Bucket>, n: nat)
    requires n < |lst|
    ensures SectionLines(lst[..n + 1]) == SectionLines(lst[..n]) + [Title(lst[n].name)] + FriendLines(lst[n].list)
  {
    assert lst[..n + 1][..n] == lst[..n];
  }

  lemma FriendLinesSnoc(fs: seq<Friend>, m: nat)
    requires m < |fs|
    ensures FriendLines(fs[..m + 1]) == FriendLines(fs[..m]) + [FriendLine(fs[m])]
  {
  }

  /** The body of `list_online_friends` up to the message it sends.
      `order` is the order Python iterates the category dict in. */
  method OnlineFriendsLines(cats: seq<Category>, info: seq<Friend>, order: seq<int>)
    returns (lines: seq<string>)
    requires Enumerates(order, CategoryTable(cats).Keys)
    ensures lines == OnlineReport(cats, info, order)
  {
    ghost var t := CategoryTable(cats);
    var cateMap := CategoryBuckets(cats);
    cateMap := FileFriends(cateMap, info, t);
    var lst := seq(|order|, i requires 0 <= i < |order| => cateMap[order[i]]);
    assert lst == DictBuckets(t, info, order);
    lst := SortBySort(lst);
    lines := ReportLines(lst);
  }

  // ---------------------------------------------------------------------
  // -glist and -dlist

  /** `(id) name`. */
  function ItemLine(item: Item): string { "(" + item.id + ") " + item.name }

  /** The lines of a group or discussion listing: the header, then one line
      per item when the hub returned something truthy. */
  function Listing(header: string, items: Option<seq<Item>>): seq<string>
  {
    match items
    case None => [header]
    case Some(xs) => [header] + seq(|xs|, i requires 0 <= i < |xs| => ItemLine(xs[i]))
  }

  /** The loop shared by `list_groups` and `list_discu`: only the header when
      the hub returned nothing, otherwise the header and one line per item, in order. */
  method ListingLines(header: string, items: Option<seq<Item>>) returns (info: seq<string>)
    ensures items.None? ==> info == [header]
    ensures items.Some? ==>
      && |info| == 1 + |items.value| && info[0] == header
      && forall i :: 0 <= i < |items.value| ==> info[i + 1] == ItemLine(items.value[i])
    ensures info == Listing(header, items)
  {
    info := [header];
    if items.Some? {
      var xs := items.value;
      var i := 0;
      while i < |xs|
        invariant 0 <= i <= |xs|
        invariant |info| == 1 + i && info[0] == header
        invariant forall k :: 0 <= k < i ==> info[k + 1] == ItemLine(xs[k])
      {
        info := info + [ItemLine(xs[i])];
        i := i + 1;
      }
    }
  }

  // ---------------------------------------------------------------------
  // -qn id

  /** The one message `get_qq_account` sends for the digit string `id`, or
      `None` when it raises instead: a group id with a falsy `get_groups()`
      has no object to ask `get_group_name` of. */
  function AccountReport(id: string, hub: Hub): Option<string>
    requires AllDigits(id)
  {
    var (uin, kind) := hub.resolve(DigitsValue(id));
    if kind == OtherKind then Some(id + " 不是群或者好友")
    else if kind == GroupKind && hub.groups.None? then None
    else
      var tys := if kind == FriendKind then "QQ号码" else "群号";
      var name := if kind == FriendKind then hub.showName(uin) else hub.groupName(uin);
      match hub.account(uin, kind)
      case Some(account) => Some(name + " 的" + tys + "是 " + account)
      case None => Some("获取" + name + "的" + tys + "失败")
  }

  /** What `get_qq_account` adds to the trace: its report, or the
      `AttributeError` that `None.get_group_name` raises. */
  function AccountEffects(id: string, hub: Hub): (es: seq<Effect>)
    requires AllDigits(id)
    ensures |es| == 1
    ensures es[0].Raise? <==> AccountReport(id, hub).None?
  {
    match AccountReport(id, hub)
    case Some(msg) => [ControlMsg(msg)]
    case None => [Raise("AttributeError")]
  }

  /** A group id with a falsy `get_groups()` ends in the exception alone. */
  lemma AccountRaises(id: string, hub: Hub)
    requires AllDigits(id)
    requires hub.resolve(DigitsValue(id)).1 == GroupKind && hub.groups.None?
    ensures AccountEffects(id, hub) == [Raise("AttributeError")]
  {
  }

  /** `x` occurs in `s`. */
  ghost predicate Contains(s: string, x: string)
  {
    exists i :: 0 <= i <= |s| && x <= s[i..]
  }

  /** Only a group id with a falsy `get_groups()` raises. Otherwise an id
      that is neither a friend nor a group is reported as such, whatever the
      hub's account lookup would say; a friend's report names the friend and
      says "QQ number", a group's names the group and says "group number",
      and a found account appears in the report. */
  lemma AccountReportCases(id: string, hub: Hub)
    requires AllDigits(id)
    ensures var (uin, kind) := hub.resolve(DigitsValue(id)); var r := AccountReport(id, hub);
      && (r.None? <==> kind == GroupKind && hub.groups.None?)
      && (kind == OtherKind ==> r == Some(id + " 不是群或者好友"))
      && (kind == FriendKind ==> r.Some? && Contains(r.value, "QQ号码") && Contains(r.value, hub.showName(uin)))
      && (kind == GroupKind && r.Some? ==> Contains(r.value, "群号") && Contains(r.value, hub.groupName(uin)))
      && (r.Some? && kind != OtherKind && hub.account(uin, kind).Some? ==> Contains(r.value, hub.account(uin, kind).value))
  {
    var (uin, kind) := hub.resolve(DigitsValue(id));
    if kind != OtherKind && !(kind == GroupKind && hub.groups.None?) {
      var r := AccountReport(id, hub).value;
      var tys := if kind == FriendKind then "QQ号码" else "群号";
      var name := if kind == FriendKind then hub.showName(uin) else hub.groupName(uin);
      match hub.account(uin, kind)
      case Some(account) =>
        assert r == name + " 的" + tys + "是 " + account;
        assert name <= r[0..];
        assert tys <= r[|name| + 2..];
        assert account <= r[|r| - |account|..];
      case None =>
        assert r == "获取" + name + "的" + tys + "失败";
        assert name <= r[2..];
        assert tys <= r[|name| + 3..];
    }
  }

  // ---------------------------------------------------------------------
  // -gr id

  /** The message `refresh_group` sends for the hub's `(success, info)`. */
  function RefreshGroupReport(result: (bool, string)): string
  {
    if !result.0 then "[S] " + result.1 else "[S] 刷新 " + result.1 + " 成员信息"
  }

  /** Both messages quote the hub's text after the `[S] ` tag, and the success
      message is the longer by the words around it, so the operator can tell
      the two apart. */
  lemma RefreshGroupReportCases(ok: bool, info: string)
    ensures var m := RefreshGroupReport((ok, info));
      "[S] " <= m && Contains(m, info)
    ensures |RefreshGroupReport((true, info))| == |RefreshGroupReport((false, info))| + 8
  {
    var m := RefreshGroupReport((ok, info));
    if ok {
      assert m == "[S] 刷新 " + info + " 成员信息";
      assert info <= m[7..];
    } else {
      assert info <= m[4..];
    }
  }
}
