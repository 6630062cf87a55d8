/** The interpreter itself: `Command` holds the command map built from the
    registrations, `parse` finds the first entry whose pattern matches the
    operator's text and runs its handler on the captures, and every handler
    reports through the XMPP client or acts on the QQ client. Each outbound
    call is appended to `trace`, so a method's effect is the suffix it adds. */
module Dispatch {
  import opened Options
  import opened Text
  import opened Dict
  import opened Pattern
  import opened Registry
  import opened Services
  import opened Reports

  // ---------------------------------------------------------------------
  // parse

  /** The loop of `parse` over the entries in the order `order` lists their
      keys: the position of the first entry whose pattern matches `s`. */
  function FirstMatch(table: map<string, Entry>, order: seq<string>, s: string): (r: Option<nat>)
    requires forall i :: 0 <= i < |order| ==> order[i] in table
    ensures r.None? <==> forall i :: 0 <= i < |order| ==> Match(table[order[i]].matcher, s).None?
    ensures r.Some? ==>
      && r.value < |order|
      && Match(table[order[r.value]].matcher, s).Some?
      && forall j :: 0 <= j < r.value ==> Match(table[order[j]].matcher, s).None?
    decreases |order|
  {
    if order == [] then None
    else if Match(table[order[0]].matcher, s).Some? then Some(0)
    else
      var r := FirstMatch(table, order[1..], s);
      assert forall j :: 0 <= j < |order| - 1 ==> order[1..][j] == order[j + 1];
      if r.None? then
        assert forall i :: 1 <= i < |order| ==> Match(table[order[i]].matcher, s).None?;
        None
      else
        assert Match(table[order[r.value + 1]].matcher, s).Some?;
        Some(r.value + 1)
  }

  /** An entry that matches with no match before it is the one `parse` picks. */
  lemma FirstMatchAt(table: map<string, Entry>, order: seq<string>, s: string, i: nat)
    requires forall j :: 0 <= j < |order| ==> order[j] in table
    requires i < |order| && Match(table[order[i]].matcher, s).Some?
    requires forall j :: 0 <= j < i ==> Match(table[order[j]].matcher, s).None?
    ensures FirstMatch(table, order, s) == Some(i)
  {
    assert FirstMatch(table, order, s).Some?;
  }

  /** At most one entry of the table matches `s`. */
  ghost predicate Exclusive(table: map<string, Entry>, s: string)
  {
    forall k1, k2 :: k1 in table && k2 in table && Match(table[k1].matcher, s).Some? && Match(table[k2].matcher, s).Some?
      ==> k1 == k2
  }

  /** When only one entry can match, `parse` picks it whatever order the
      table is iterated in. */
  lemma FirstMatchExclusive(table: map<string, Entry>, order: seq<string>, s: string, k: string)
    requires Enumerates(order, table.Keys)
    requires Exclusive(table, s)
    requires k in table && Match(table[k].matcher, s).Some?
    ensures FirstMatch(table, order, s).Some?
    ensures order[FirstMatch(table, order, s).value] == k
  {
    assert k in order;
    var i :| 0 <= i < |order| && order[i] == k;
    assert Match(table[order[i]].matcher, s).Some?;
    var r := FirstMatch(table, order, s).value;
    assert order[r] in table;
  }

  /** When at most one entry matches, the order the table is iterated in does
      not change whether `parse` matches nor which entry it runs; it changes
      the effects only through the help text, which lists the entries in
      iteration order. */
  lemma ExclusiveOrderIndependent(table: map<string, Entry>, o1: seq<string>, o2: seq<string>, s: string, hub: Hub)
    requires Enumerates(o1, table.Keys) && Enumerates(o2, table.Keys)
    requires WellFormed(table) && HubValid(hub)
    requires Exclusive(table, s)
    ensures FirstMatch(table, o1, s).None? <==> FirstMatch(table, o2, s).None?
    ensures FirstMatch(table, o1, s).Some? ==>
      o1[FirstMatch(table, o1, s).value] == o2[FirstMatch(table, o2, s).value]
    ensures FirstMatch(table, o1, s).Some? && table[o1[FirstMatch(table, o1, s).value]].handler.action != Help ==>
      Dispatched(table, o1, s, hub) == Dispatched(table, o2, s, hub)
  {
    match FirstMatch(table, o1, s)
    case Some(i) =>
      FirstMatchExclusive(table, o2, s, o1[i]);
    case None =>
      if FirstMatch(table, o2, s).Some? {
        var j := FirstMatch(table, o2, s).value;
        FirstMatchExclusive(table, o1, s, o2[j]);
      }
  }

  /** A table filed by prefix-free declarations has at most one entry
      matching any input. */
  lemma DeclsExclusive(t: map<string, Entry>, ds: seq<Decl>, s: string)
    requires FiledBy(t, ds) && PrefixFree(ds)
    ensures Exclusive(t, s)
  {
    var ts := Texts(ds);
    forall k1, k2 | k1 in t && k2 in t && Match(t[k1].matcher, s).Some? && Match(t[k2].matcher, s).Some?
      ensures k1 == k2
    {
      assert k1 in ts && k2 in ts;
      var i :| 0 <= i < |ts| && ts[i] == k1;
      var j :| 0 <= j < |ts| && ts[j] == k2;
      MatchExclusive(ds, s, i, j);
    }
  }

  /** An input that a declaration's pattern matches runs that declaration's
      entry on its captures, whatever the iteration order. */
  lemma DeclRoute(t: map<string, Entry>, ds: seq<Decl>, order: seq<string>, s: string, hub: Hub, i: nat)
    requires FiledBy(t, ds) && PrefixFree(ds) && WellFormed(t)
    requires Enumerates(order, t.Keys) && HubValid(hub)
    requires i < |ds| && Match(ds[i].matcher, s).Some?
    ensures FirstMatch(t, order, s).Some?
    ensures order[FirstMatch(t, order, s).value] == PatternText(ds[i])
    ensures Dispatched(t, order, s, hub)
      == HandlerEffects(ds[i].action, Match(ds[i].matcher, s).value, t, order, hub)
  {
    DeclsExclusive(t, ds, s);
    FirstMatchExclusive(t, order, s, PatternText(ds[i]));
  }

  /** An input that no declaration's pattern matches is ignored: `parse`
      finds no entry and nothing is sent. */
  lemma DeclsNoMatch(t: map<string, Entry>, ds: seq<Decl>, order: seq<string>, s: string, hub: Hub)
    requires FiledBy(t, ds) && WellFormed(t)
    requires Enumerates(order, t.Keys) && HubValid(hub)
    requires forall i :: 0 <= i < |ds| ==> Match(ds[i].matcher, s).None?
    ensures FirstMatch(t, order, s).None?
    ensures Dispatched(t, order, s, hub) == []
  {
    var ts := Texts(ds);
    forall j | 0 <= j < |order| ensures Match(t[order[j]].matcher, s).None? {
      assert order[j] in ts;
      var i :| 0 <= i < |ts| && ts[i] == order[j];
    }
  }

  // ---------------------------------------------------------------------
  // help_info

  const HelpHeader: string := "命令列表"

  /** The name a command is listed under: its display text, or its pattern. */
  function Display(key: string, e: Entry): string
  {
    match e.replace
    case None => key
    case Some(text) => text
  }

  /** The handler's docstring, or the empty text when it has none. */
  function DocText(h: Handler): string
  {
    match h.doc
    case None => ""
    case Some(d) => d
  }

  function HelpLine(key: string, e: Entry): string
  {
    Display(key, e) + "    " + Strip(DocText(e.handler))
  }

  /** The lines `help_info` collects: the header, then one line per entry in
      iteration order. */
  function HelpLines(table: map<string, Entry>, order: seq<string>): (r: seq<string>)
    requires forall i :: 0 <= i < |order| ==> order[i] in table
    ensures |r| == |order| + 1
  {
    [HelpHeader] + seq(|order|, i requires 0 <= i < |order| => HelpLine(order[i], table[order[i]]))
  }

  /** The help text: the lines joined by newlines. */
  function HelpMessage(table: map<string, Entry>, order: seq<string>): string
    requires forall i :: 0 <= i < |order| ==> order[i] in table
  {
    Join("\n", HelpLines(table, order))
  }

  /** The help lists every entry of the table, one line each: there are as
      many lines after the header as the table has keys, and each entry's
      line is among them. */
  lemma HelpCoversTable(table: map<string, Entry>, order: seq<string>)
    requires Enumerates(order, table.Keys)
    ensures |HelpLines(table, order)| == |table.Keys| + 1
    ensures HelpLines(table, order)[0] == HelpHeader
    ensures forall k :: k in table ==> HelpLine(k, table[k]) in HelpLines(table, order)[1..]
  {
    EnumeratesCount(order, table.Keys);
    var ls := HelpLines(table, order);
    forall k | k in table ensures HelpLine(k, table[k]) in ls[1..] {
      assert k in order;
      var i :| 0 <= i < |order| && order[i] == k;
      assert ls[1..][i] == HelpLine(k, table[k]);
    }
  }

  /** When no line holds a newline, splitting the help text at newlines gives
      back exactly the header and the one line per entry. */
  lemma HelpSplits(table: map<string, Entry>, order: seq<string>)
    requires forall i :: 0 <= i < |order| ==> order[i] in table
    requires forall k :: k in table ==> '\n' !in HelpLine(k, table[k])
    ensures Split('\n', HelpMessage(table, order)) == HelpLines(table, order)
  {
    HelpLinesOneLine(table, order);
    SplitJoin('\n', HelpLines(table, order));
  }

  lemma HelpLinesOneLine(table: map<string, Entry>, order: seq<string>)
    requires forall i :: 0 <= i < |order| ==> order[i] in table
    requires forall k :: k in table ==> '\n' !in HelpLine(k, table[k])
    ensures forall i :: 0 <= i < |HelpLines(table, order)| ==> '\n' !in HelpLines(table, order)[i]
  {
    var ls := HelpLines(table, order);
    assert '\n' !in HelpHeader;
    forall i | 0 < i < |ls| ensures '\n' !in ls[i] {
      assert ls[i] == HelpLine(order[i - 1], table[order[i - 1]]);
    }
  }

  /** An interpreter method with a docstring is listed with the docstring's
      summary, and one without (`refresh_friend_info`) with nothing after the
      four spaces. */
  lemma HelpLineText(key: string, e: Entry)
    requires e.handler == Method(e.handler.action)
    ensures Summary(e.handler.action).None? ==> HelpLine(key, e) == Display(key, e) + "    "
    ensures Summary(e.handler.action).Some? ==>
      HelpLine(key, e) == Display(key, e) + "    " + Summary(e.handler.action).value
  {
    match Summary(e.handler.action)
    case None =>
      assert Display(key, e) + "    " + [] == Display(key, e) + "    ";
    case Some(x) =>
      SummaryShape(e.handler.action);
      assert DocString(x) == " " + x + "\n        ";
      StripPadded(" ", x, "\n        ");
  }

  /** A method's help line is one line when its display text is. */
  lemma HelpLineOneLine(key: string, e: Entry)
    requires e.handler == Method(e.handler.action)
    requires '\n' !in Display(key, e)
    ensures '\n' !in HelpLine(key, e)
  {
    HelpLineText(key, e);
    if Summary(e.handler.action).Some? {
      SummaryOneLine(e.handler.action);
    }
  }

  /** Every summary is non-empty with no whitespace at either end... */
  lemma SummaryShape(a: Action)
    requires Summary(a).Some?
    ensures var x := Summary(a).value;
      x != [] && !IsSpace(x[0]) && !IsSpace(x[|x| - 1])
  {
  }

  /** ... and is one line. */
  lemma SummaryOneLine(a: Action)
    requires Summary(a).Some?
    ensures '\n' !in Summary(a).value
  {
  }

  // ---------------------------------------------------------------------
  // the handlers

  /** The hub's category order enumerates the categories' dict. */
  ghost predicate HubValid(hub: Hub)
  {
    Enumerates(hub.categoryOrder, CategoryTable(hub.categories).Keys)
  }

  /** What running handler `h` on the captures `args` adds to the trace. */
  function HandlerEffects(h: Action, args: seq<string>, table: map<string, Entry>, order: seq<string>, hub: Hub): seq<Effect>
    requires |args| == Arity(h)
    requires h == QQAccount ==> AllDigits(args[0])
    requires forall i :: 0 <= i < |order| ==> order[i] in table
    requires HubValid(hub)
  {
    match h
    case Help => [ControlMsg(HelpMessage(table, order))]
    case OnlineFriends => [ControlMsg(Join("\n", OnlineReport(hub.categories, hub.friends, hub.categoryOrder)))]
    case Groups => [ControlMsg(Join("\n", Listing(GroupsHeader, hub.groups)))]
    case Discussions => [ControlMsg(Join("\n", Listing(DiscusHeader, hub.discus)))]
    case AtMessage => [SendMessageWithAid(args[0], args[1])]
    case QQAccount => AccountEffects(args[0], hub)
    case Restart => [Status("重新登陆..."), HubDisconnect, HubConnect]
    case Stop => [Status("WebQQ登出"), ClientDisconnect]
    case Start => [Status("WebQQ登录中"), ClientConnect]
    case GroupRefresh => [RefreshGroupMembers(args[0]), ControlMsg(RefreshGroupReport(hub.refreshGroup(args[0])))]
    case FriendRefresh => [RefreshFriends, ControlMsg("[S] 刷新好友信息")]
  }

  /** What `parse(s)` adds to the trace: the effects of the first matching
      entry's handler, or nothing at all. */
  function Dispatched(table: map<string, Entry>, order: seq<string>, s: string, hub: Hub): seq<Effect>
    requires Enumerates(order, table.Keys) && WellFormed(table)
    requires HubValid(hub)
  {
    match FirstMatch(table, order, s)
    case None => []
    case Some(i) =>
      var e := table[order[i]];
      HandlerEffects(e.handler.action, Match(e.matcher, s).value, table, order, hub)
  }

  /** 1 for a control message, 0 for any other effect. */
  function IsReport(e: Effect): nat { if e.ControlMsg? then 1 else 0 }

  /** How many control messages a list of effects sends. */
  function ReportCount(es: seq<Effect>): nat
  {
    if es == [] then 0 else IsReport(es[0]) + ReportCount(es[1..])
  }

  /** The handlers that answer the operator send exactly one control message;
      `#id content` and the three session commands send none, and neither
      does `-qn` when it raises on a group id. */
  lemma HandlerReports(h: Action, args: seq<string>, table: map<string, Entry>, order: seq<string>, hub: Hub)
    requires |args| == Arity(h)
    requires h == QQAccount ==> AllDigits(args[0])
    requires forall i :: 0 <= i < |order| ==> order[i] in table
    requires HubValid(hub)
    ensures ReportCount(HandlerEffects(h, args, table, order, hub))
      == (if h in {AtMessage, Restart, Stop, Start} || (h == QQAccount && AccountReport(args[0], hub).None?) then 0 else 1)
  {
    ReportCountShort(HandlerEffects(h, args, table, order, hub));
  }

  /** `ReportCount` on lists of at most three effects, written out. */
  lemma ReportCountShort(es: seq<Effect>)
    requires |es| <= 3
    ensures ReportCount(es) == (if |es| > 0 then IsReport(es[0]) else 0)
      + (if |es| > 1 then IsReport(es[1]) else 0) + (if |es| > 2 then IsReport(es[2]) else 0)
  {
    if |es| > 0 {
      var t := es[1..];
      if |t| > 0 {
        assert t[1..] == es[2..];
        if |t[1..]| > 0 {
          assert t[1..][1..] == [];
        }
      }
    }
  }

  // ---------------------------------------------------------------------
  // the interpreter

  /** One turn of `_load_commands`' loop files the next registration over
      whatever the map held. */
  lemma LoadStep(start: map<string, Entry>, regs: seq<Registration>, i: nat)
    requires forall j :: 0 <= j < |regs| ==> Loadable(regs[j])
    requires i < |regs|
    ensures start + Table(regs[..i + 1])
      == (start + Table(regs[..i]))[regs[i].command := EntryOf(regs[i])]
  {
    var r := regs[i];
    assert regs[..i + 1] == regs[..i] + [r];
    TableSnoc(regs[..i], r);
    UnionUpdate(start, Table(regs[..i]), r.command, EntryOf(r));
  }

  class Command {
    /** `_command_map`. */
    var commandMap: map<string, Entry>
    /** The order Python iterates `_command_map` in. */
    var order: seq<string>
    /** The calls made to the XMPP and QQ clients so far, oldest first. */
    var trace: seq<Effect>

    ghost predicate Valid()
      reads this
    {
      Enumerates(order, commandMap.Keys) && WellFormed(commandMap)
    }

    /** `Command(xmpp_client, qq_client)` for a class whose decorated methods
        are `regs`, whose dict ends up iterated in `order`. */
    constructor (regs: seq<Registration>, order: seq<string>)
      requires forall i :: 0 <= i < |regs| ==> Loadable(regs[i])
      requires Enumerates(order, Table(regs).Keys)
      ensures commandMap == Table(regs) && this.order == order && trace == []
      ensures Valid()
    {
      commandMap := map[];
      this.order := order;
      trace := [];
      new;
      LoadCommands(regs);
      EmptyUnion(Table(regs));
      TableWellFormed(regs);
    }

    /** `_load_commands`: files each registration under its pattern text. */
    method LoadCommands(regs: seq<Registration>)
      requires forall i :: 0 <= i < |regs| ==> Loadable(regs[i])
      modifies this
      ensures commandMap == old(commandMap) + Table(regs)
      ensures order == old(order) && trace == old(trace)
    {
      ghost var start := commandMap;
      var i := 0;
      while i < |regs|
        invariant 0 <= i <= |regs|
        invariant commandMap == start + Table(regs[..i])
        invariant order == old(order) && trace == old(trace)
      {
        var r := regs[i];
        var pattern := Compile(r.command).value;
        LoadStep(start, regs, i);
        commandMap := commandMap[r.command := Entry(pattern, r.handler, r.replace)];
        i := i + 1;
      }
      assert regs[..i] == regs;
    }

    /** One call out of the interpreter. */
    method Emit(e: Effect)
      modifies this
      ensures trace == old(trace) + [e]
      ensures commandMap == old(commandMap) && order == old(order)
    {
      trace := trace + [e];
    }

    /** `parse(command)`: runs the first entry that matches and answers true,
        or answers false (Python's `None`) having done nothing. */
    method Parse(hub: Hub, command: string) returns (matched: bool)
      requires Valid() && HubValid(hub)
      modifies this
      ensures commandMap == old(commandMap) && order == old(order)
      ensures matched <==> FirstMatch(commandMap, order, command).Some?
      ensures trace == old(trace) + Dispatched(commandMap, order, command, hub)
      ensures !matched ==> trace == old(trace)
    {
      var i := 0;
      while i < |order|
        invariant 0 <= i <= |order|
        invariant forall j :: 0 <= j < i ==> Match(commandMap[order[j]].matcher, command).None?
        invariant commandMap == old(commandMap) && order == old(order) && trace == old(trace)
      {
        var e := commandMap[order[i]];
        var sre := Match(e.matcher, command);
        if sre.Some? {
          FirstMatchAt(commandMap, order, command, i);
          Run(hub, e.handler.action, sre.value);
          return true;
        }
        i := i + 1;
      }
      return false;
    }

    /** `handler(*sre.groups())`. */
    method Run(hub: Hub, h: Action, args: seq<string>)
      requires Valid() && HubValid(hub)
      requires |args| == Arity(h)
      requires h == QQAccount ==> AllDigits(args[0])
      modifies this
      ensures commandMap == old(commandMap) && order == old(order)
      ensures trace == old(trace) + HandlerEffects(h, args, commandMap, order, hub)
    {
      match h
      case Help => HelpInfo();
      case OnlineFriends => ListOnlineFriends(hub);
      case Groups => ListGroups(hub);
      case Discussions => ListDiscu(hub);
      case AtMessage => SendAtMessage(args[0], args[1]);
      case QQAccount => GetQQAccount(hub, args[0]);
      case Restart => RestartWebQQ();
      case Stop => StopWebQQ();
      case Start => StartWebQQ();
      case GroupRefresh => RefreshGroup(hub, args[0]);
      case FriendRefresh => RefreshFriendInfo();
    }

    /** `help_info`. */
    method HelpInfo()
      requires forall i :: 0 <= i < |order| ==> order[i] in commandMap
      modifies this
      ensures commandMap == old(commandMap) && order == old(order)
      ensures trace == old(trace) + [ControlMsg(HelpMessage(commandMap, order))]
    {
      var table, keys := commandMap, order;
      var info := [HelpHeader];
      var i := 0;
      while i < |keys|
        invariant 0 <= i <= |keys|
        invariant |info| == i + 1 && info[0] == HelpHeader
        invariant forall j :: 0 <= j < i ==> info[j + 1] == HelpLine(keys[j], table[keys[j]])
      {
        var command := keys[i];
        var entry := table[command];
        var display := if entry.replace.None? then command else entry.replace.value;
        var doc := DocText(entry.handler);
        info := info + [display + "    " + Strip(doc)];
        i := i + 1;
      }
      assert info == HelpLines(table, keys);
      Emit(ControlMsg(Join("\n", info)));
    }

    /** `list_online_friends`. */
    method ListOnlineFriends(hub: Hub)
      requires HubValid(hub)
      modifies this
      ensures commandMap == old(commandMap) && order == old(order)
      ensures trace == old(trace) + [ControlMsg(Join("\n", OnlineReport(hub.categories, hub.friends, hub.categoryOrder)))]
    {
      var info := OnlineFriendsLines(hub.categories, hub.friends, hub.categoryOrder);
      Emit(ControlMsg(Join("\n", info)));
    }

    /** `list_groups`. */
    method ListGroups(hub: Hub)
      modifies this
      ensures commandMap == old(commandMap) && order == old(order)
      ensures trace == old(trace) + [ControlMsg(Join("\n", Listing(GroupsHeader, hub.groups)))]
    {
      var info := ListingLines(GroupsHeader, hub.groups);
      Emit(ControlMsg(Join("\n", info)));
    }

    /** `list_discu`. */
    method ListDiscu(hub: Hub)
      modifies this
      ensures commandMap == old(commandMap) && order == old(order)
      ensures trace == old(trace) + [ControlMsg(Join("\n", Listing(DiscusHeader, hub.discus)))]
    {
      var info := ListingLines(DiscusHeader, hub.discus);
      Emit(ControlMsg(Join("\n", info)));
    }

    /** `send_at_message(_id, content)`. */
    method SendAtMessage(id: string, content: string)
      modifies this
      ensures commandMap == old(commandMap) && order == old(order)
      ensures trace == old(trace) + [SendMessageWithAid(id, content)]
    {
      Emit(SendMessageWithAid(id, content));
    }

    /** `get_qq_account(_id)`: one report on every path, the early return
        included, except a group id while `get_groups()` is falsy, which
        raises before any report. */
    method GetQQAccount(hub: Hub, id: string)
      requires AllDigits(id)
      modifies this
      ensures commandMap == old(commandMap) && order == old(order)
      ensures trace == old(trace) + AccountEffects(id, hub)
    {
      var (uin, kind) := hub.resolve(DigitsValue(id));
      var tys, name;
      if kind == FriendKind {
        tys := "QQ号码";
        name := hub.showName(uin);
      } else if kind == GroupKind {
        tys := "群号";
        if hub.groups.None? {
          Emit(Raise("AttributeError"));
          return;
        }
        name := hub.groupName(uin);
      } else {
        Emit(ControlMsg(id + " 不是群或者好友"));
        return;
      }
      var account := hub.account(uin, kind);
      var msg;
      if account.Some? {
        msg := name + " 的" + tys + "是 " + account.value;
      } else {
        msg := "获取" + name + "的" + tys + "失败";
      }
      Emit(ControlMsg(msg));
    }

    /** `restart_webqq`. */
    method RestartWebQQ()
      modifies this
      ensures commandMap == old(commandMap) && order == old(order)
      ensures trace == old(trace) + [Status("重新登陆..."), HubDisconnect, HubConnect]
    {
      Emit(Status("重新登陆..."));
      Emit(HubDisconnect);
      Emit(HubConnect);
    }

    /** `stop_webqq`. */
    method StopWebQQ()
      modifies this
      ensures commandMap == old(commandMap) && order == old(order)
      ensures trace == old(trace) + [Status("WebQQ登出"), ClientDisconnect]
    {
      Emit(Status("WebQQ登出"));
      Emit(ClientDisconnect);
    }

    /** `start_webqq`. */
    method StartWebQQ()
      modifies this
      ensures commandMap == old(commandMap) && order == old(order)
      ensures trace == old(trace) + [Status("WebQQ登录中"), ClientConnect]
    {
      Emit(Status("WebQQ登录中"));
      Emit(ClientConnect);
    }

    /** `refresh_group(_id)`. */
    method RefreshGroup(hub: Hub, id: string)
      modifies this
      ensures commandMap == old(commandMap) && order == old(order)
      ensures trace == old(trace) + [RefreshGroupMembers(id), ControlMsg(RefreshGroupReport(hub.refreshGroup(id)))]
    {
      Emit(RefreshGroupMembers(id));
      var (r, info) := hub.refreshGroup(id);
      if !r {
        Emit(ControlMsg("[S] " + info));
      } else {
        Emit(ControlMsg("[S] 刷新 " + info + " 成员信息"));
      }
    }

    /** `refresh_friend_info`. */
    method RefreshFriendInfo()
      modifies this
      ensures commandMap == old(commandMap) && order == old(order)
      ensures trace == old(trace) + [RefreshFriends, ControlMsg("[S] 刷新好友信息")]
    {
      Emit(RefreshFriends);
      Emit(ControlMsg("[S] 刷新好友信息"));
    }
  }

  /** Parsing the same text twice against the same hub data runs the same
      handler with the same effects both times: `parse` itself changes
      nothing but the trace. Whether the hub data is the same after a
      command is the caller's premise; `-gr`, `-fr` and `-restart` act on the
      hub and may well change it. */
  method ParseTwice(c: Command, hub: Hub, command: string) returns (first: seq<Effect>, second: seq<Effect>)
    requires c.Valid() && HubValid(hub)
    modifies c
    ensures c.commandMap == old(c.commandMap) && c.order == old(c.order) && c.Valid()
    ensures first == second == Dispatched(c.commandMap, c.order, command, hub)
    ensures c.trace == old(c.trace) + first + second
  {
    var t0 := c.trace;
    var _ := c.Parse(hub, command);
    var t1 := c.trace;
    var _ := c.Parse(hub, command);
    first, second := t1[|t0|..], c.trace[|t1|..];
  }
}
