/** The interpreter as shipped: the table its eleven decorated methods
    build, and what `parse` does with some inputs whatever order the
    dict is iterated in. */
module Standard {
  import opened Options
  import opened Text
  import opened Dict
  import opened Pattern
  import opened Registry
  import opened Services
  import opened Reports
  import opened Dispatch

  /** No input matches two of the eleven patterns, so the iteration order of
      `_command_map` never changes which command runs, and changes what it
      does only for `-help`, whose text lists the entries in that order. */
  lemma StandardOrderIndependent(o1: seq<string>, o2: seq<string>, s: string, hub: Hub)
    requires Enumerates(o1, StandardTable().Keys) && Enumerates(o2, StandardTable().Keys)
    requires HubValid(hub)
    ensures Exclusive(StandardTable(), s)
    ensures FirstMatch(StandardTable(), o1, s).None? <==> FirstMatch(StandardTable(), o2, s).None?
    ensures FirstMatch(StandardTable(), o1, s).Some? ==>
      o1[FirstMatch(StandardTable(), o1, s).value] == o2[FirstMatch(StandardTable(), o2, s).value]
    ensures FirstMatch(StandardTable(), o1, s).Some?
      && StandardTable()[o1[FirstMatch(StandardTable(), o1, s).value]].handler.action != Help
      ==> Dispatched(StandardTable(), o1, s, hub) == Dispatched(StandardTable(), o2, s, hub)
  {
    StandardFiled();
    DeclsExclusive(StandardTable(), Decls(), s);
    ExclusiveOrderIndependent(StandardTable(), o1, o2, s, hub);
  }

  /** Every command starts with `-` or `#`. */
  lemma PrefixesLead()
    ensures forall i :: 0 <= i < |Decls()| ==>
      var p := Decls()[i].matcher.prefix; p != [] && (p[0] == '-' || p[0] == '#')
  {
  }

  /** Patterns that start with `-` or `#` do not match text that does not. */
  lemma LeadNoMatch(ds: seq<Decl>, s: string)
    requires forall i :: 0 <= i < |ds| ==>
      var p := ds[i].matcher.prefix; p != [] && (p[0] == '-' || p[0] == '#')
    requires s == [] || (s[0] != '-' && s[0] != '#')
    ensures forall i :: 0 <= i < |ds| ==> Match(ds[i].matcher, s).None?
  {
    forall i | 0 <= i < |ds| ensures Match(ds[i].matcher, s).None? {
      var p := ds[i].matcher.prefix;
      assert p != [] && (p[0] == '-' || p[0] == '#');
    }
  }

  /** Text that does not start with `-` or `#`, such as a chat message, runs
      nothing and sends nothing. */
  lemma StandardIgnores(order: seq<string>, s: string, hub: Hub)
    requires Enumerates(order, StandardTable().Keys) && HubValid(hub)
    requires s == [] || (s[0] != '-' && s[0] != '#')
    ensures FirstMatch(StandardTable(), order, s).None?
    ensures Dispatched(StandardTable(), order, s, hub) == []
  {
    StandardFiled();
    PrefixesLead();
    LeadNoMatch(Decls(), s);
    DeclsNoMatch(StandardTable(), Decls(), order, s, hub);
  }

  lemma HelpDecl()
    ensures Decls()[1] == Decl(Literal("-help"), false, None, Help)
  {
  }

  /** Matching is anchored at the start but not at the end: `-helpme` runs
      `help_info`. */
  lemma HelpMeRunsHelp(order: seq<string>, hub: Hub)
    requires Enumerates(order, StandardTable().Keys) && HubValid(hub)
    ensures FirstMatch(StandardTable(), order, "-helpme").Some?
    ensures order[FirstMatch(StandardTable(), order, "-helpme").value] == "-help"
    ensures Dispatched(StandardTable(), order, "-helpme", hub)
      == [ControlMsg(HelpMessage(StandardTable(), order))]
  {
    StandardFiled();
    ListCommandTexts();
    HelpDecl();
    LiteralMatchIff("-help", "-helpme");
    DeclRoute(StandardTable(), Decls(), order, "-helpme", hub, 1);
  }

  lemma IdDecls()
    ensures Decls()[0] == Decl(Digits("-qn "), false, Some("-qn id"), QQAccount)
    ensures Decls()[8] == Decl(DigitsRest("#"), true, Some("#id content"), AtMessage)
  {
  }

  /** A declaration `p(\d+)` of `get_qq_account` answers `p` and a digit
      run with the account report for that run, whatever follows it. */
  lemma AccountDeclRoute(t: map<string, Entry>, ds: seq<Decl>, order: seq<string>, hub: Hub, i: nat, d: string, rest: string)
    requires FiledBy(t, ds) && PrefixFree(ds) && WellFormed(t)
    requires Enumerates(order, t.Keys) && HubValid(hub)
    requires i < |ds| && ds[i].matcher.Digits? && ds[i].action == QQAccount
    requires d != [] && AllDigits(d) && (rest != [] ==> !IsDigit(rest[0]))
    ensures var s := ds[i].matcher.prefix + d + rest;
      && FirstMatch(t, order, s).Some?
      && order[FirstMatch(t, order, s).value] == PatternText(ds[i])
      && Dispatched(t, order, s, hub) == AccountEffects(d, hub)
  {
    DigitsThen(ds[i].matcher.prefix, d, rest);
    DeclRoute(t, ds, order, ds[i].matcher.prefix + d + rest, hub, i);
  }

  /** `-qn` followed by a digit run asks for the account of that id,
      whatever follows the run. */
  lemma QnRoute(order: seq<string>, hub: Hub, d: string, rest: string)
    requires Enumerates(order, StandardTable().Keys) && HubValid(hub)
    requires d != [] && AllDigits(d) && (rest != [] ==> !IsDigit(rest[0]))
    ensures FirstMatch(StandardTable(), order, "-qn " + d + rest).Some?
    ensures order[FirstMatch(StandardTable(), order, "-qn " + d + rest).value] == "-qn (\\d+)"
    ensures Dispatched(StandardTable(), order, "-qn " + d + rest, hub) == AccountEffects(d, hub)
  {
    StandardFiled();
    GroupCommandTexts();
    IdDecls();
    AccountDeclRoute(StandardTable(), Decls(), order, hub, 0, d, rest);
  }

  /** `-qn 12abc` asks for the account of id `12`. */
  lemma QnTrailingText(order: seq<string>, hub: Hub)
    requires Enumerates(order, StandardTable().Keys) && HubValid(hub)
    ensures Dispatched(StandardTable(), order, "-qn 12abc", hub) == AccountEffects("12", hub)
  {
    assert "-qn 12abc" == "-qn " + "12" + "abc";
    QnRoute(order, hub, "12", "abc");
  }

  /** `-qn` on a group id while `get_groups()` is falsy raises
      `AttributeError` and sends the operator nothing. */
  lemma QnGroupWithoutGroups(order: seq<string>, hub: Hub, d: string)
    requires Enumerates(order, StandardTable().Keys) && HubValid(hub)
    requires d != [] && AllDigits(d)
    requires hub.resolve(DigitsValue(d)).1 == GroupKind && hub.groups.None?
    ensures Dispatched(StandardTable(), order, "-qn " + d, hub) == [Raise("AttributeError")]
    ensures ReportCount(Dispatched(StandardTable(), order, "-qn " + d, hub)) == 0
  {
    var s := "-qn " + d;
    assert s == "-qn " + d + "";
    QnRoute(order, hub, d, "");
    AccountRaises(d, hub);
    ReportCountShort([Raise("AttributeError")]);
  }

  /** A declaration `p(\d+)(.*)` of `send_at_message` sends whatever
      follows `p` and a digit run to that run. */
  lemma MessageDeclRoute(t: map<string, Entry>, ds: seq<Decl>, order: seq<string>, hub: Hub, i: nat, d: string, rest: string)
    requires FiledBy(t, ds) && PrefixFree(ds) && WellFormed(t)
    requires Enumerates(order, t.Keys) && HubValid(hub)
    requires i < |ds| && ds[i].matcher.DigitsRest? && ds[i].action == AtMessage
    requires d != [] && AllDigits(d) && (rest != [] ==> !IsDigit(rest[0]))
    ensures var s := ds[i].matcher.prefix + d + rest;
      && FirstMatch(t, order, s).Some?
      && order[FirstMatch(t, order, s).value] == PatternText(ds[i])
      && Dispatched(t, order, s, hub) == [SendMessageWithAid(d, rest)]
  {
    DigitsThen(ds[i].matcher.prefix, d, rest);
    DeclRoute(t, ds, order, ds[i].matcher.prefix + d + rest, hub, i);
  }

  /** Any text after `#` and a digit run is passed on whole, newlines
      included: the two captures are the digit run and everything after it. */
  lemma AtMessageRoute(order: seq<string>, hub: Hub, d: string, rest: string)
    requires Enumerates(order, StandardTable().Keys) && HubValid(hub)
    requires d != [] && AllDigits(d) && (rest != [] ==> !IsDigit(rest[0]))
    ensures FirstMatch(StandardTable(), order, "#" + d + rest).Some?
    ensures order[FirstMatch(StandardTable(), order, "#" + d + rest).value] == "^#(\\d+)(.*)"
    ensures Dispatched(StandardTable(), order, "#" + d + rest, hub) == [SendMessageWithAid(d, rest)]
  {
    StandardFiled();
    GroupCommandTexts();
    IdDecls();
    MessageDeclRoute(StandardTable(), Decls(), order, hub, 8, d, rest);
  }

  /** `#42 hello` sends ` hello`, leading space included, to id `42`. */
  lemma AtMessageCaptures(order: seq<string>, hub: Hub)
    requires Enumerates(order, StandardTable().Keys) && HubValid(hub)
    ensures Dispatched(StandardTable(), order, "#42 hello", hub) == [SendMessageWithAid("42", " hello")]
  {
    assert "#42 hello" == "#" + "42" + " hello";
    AtMessageRoute(order, hub, "42", " hello");
  }

  /** With DOTALL the message runs on across a newline. */
  lemma AtMessageMultiline(order: seq<string>, hub: Hub)
    requires Enumerates(order, StandardTable().Keys) && HubValid(hub)
    ensures Dispatched(StandardTable(), order, "#7 a\nb", hub) == [SendMessageWithAid("7", " a\nb")]
  {
    assert "#7 a\nb" == "#" + "7" + " a\nb";
    AtMessageRoute(order, hub, "7", " a\nb");
  }

  /** The help text of the interpreter has the header and eleven lines. */
  lemma StandardHelpSize(order: seq<string>)
    requires Enumerates(order, StandardTable().Keys)
    ensures |HelpLines(StandardTable(), order)| == 12
  {
    StandardFiled();
    EnumeratesCount(Texts(Decls()), StandardTable().Keys);
    HelpCoversTable(StandardTable(), order);
  }

  /** No pattern text spans two lines... */
  lemma PatternsOneLine()
    ensures forall i :: 0 <= i < |Decls()| ==> '\n' !in PatternText(Decls()[i])
  {
  }

  /** ... and neither does any display text. */
  lemma DisplaysOneLine()
    ensures forall i :: 0 <= i < |Decls()| ==>
      Decls()[i].replace.Some? ==> '\n' !in Decls()[i].replace.value
  {
  }

  /** A table filed by declarations whose texts are one line each, holding
      methods with their docstrings, has one help line per entry. */
  lemma FiledHelpSplits(t: map<string, Entry>, ds: seq<Decl>, order: seq<string>)
    requires FiledBy(t, ds) && Enumerates(order, t.Keys)
    requires forall k :: k in t ==> t[k].handler == Method(t[k].handler.action)
    requires forall i :: 0 <= i < |ds| ==>
      && '\n' !in PatternText(ds[i])
      && (ds[i].replace.Some? ==> '\n' !in ds[i].replace.value)
    ensures Split('\n', HelpMessage(t, order)) == HelpLines(t, order)
  {
    var ts := Texts(ds);
    forall k | k in t ensures '\n' !in HelpLine(k, t[k]) {
      assert k in ts;
      var i :| 0 <= i < |ts| && ts[i] == k;
      HelpLineOneLine(k, t[k]);
    }
    HelpSplits(t, order);
  }

  /** Splitting the interpreter's help text at newlines gives back its lines:
      every command's line is a single line. */
  lemma StandardHelpSplits(order: seq<string>)
    requires Enumerates(order, StandardTable().Keys)
    ensures Split('\n', HelpMessage(StandardTable(), order)) == HelpLines(StandardTable(), order)
  {
    StandardFiled();
    StandardHandlers();
    PatternsOneLine();
    DisplaysOneLine();
    FiledHelpSplits(StandardTable(), Decls(), order);
  }

  /** A command filed under `key` with no display text whose method has no
      docstring is listed as `key` and four spaces. */
  lemma BareHelpLine(t: map<string, Entry>, order: seq<string>, key: string)
    requires Enumerates(order, t.Keys)
    requires key in t && t[key].replace.None?
    requires t[key].handler == Method(FriendRefresh)
    ensures key + "    " in HelpLines(t, order)[1..]
  {
    var e := t[key];
    HelpLineText(key, e);
    assert Summary(e.handler.action).None?;
    assert HelpLine(key, e) == key + "    ";
    HelpCoversTable(t, order);
  }

  /** `refresh_friend_info` has no docstring, so its help line is `-fr` and
      four spaces. */
  lemma FriendRefreshHelpLine(order: seq<string>)
    requires Enumerates(order, StandardTable().Keys)
    ensures "-fr" + "    " in HelpLines(StandardTable(), order)[1..]
  {
    FriendRefreshEntry();
    BareHelpLine(StandardTable(), order, "-fr");
  }

  /** `-fr` is filed with no display text and the undocumented method. */
  lemma FriendRefreshEntry()
    ensures "-fr" in StandardTable() && StandardTable()["-fr"].replace.None?
    ensures StandardTable()["-fr"].handler.action == FriendRefresh
  {
    StandardFiled();
    SessionCommandTexts();
    FriendRefreshDecl();
  }

  /** A command filed under `key` with display text `shown`, whose method
      has a docstring, is listed as `shown`, four spaces and the docstring's
      summary. */
  lemma SummaryHelpLine(t: map<string, Entry>, order: seq<string>, key: string, shown: string)
    requires Enumerates(order, t.Keys)
    requires key in t && t[key].replace == Some(shown)
    requires t[key].handler == Method(t[key].handler.action)
    requires Summary(t[key].handler.action).Some?
    ensures shown + "    " + Summary(t[key].handler.action).value in HelpLines(t, order)[1..]
  {
    HelpLineText(key, t[key]);
    HelpCoversTable(t, order);
  }

  /** `-qn` is filed with its display text and `get_qq_account`. */
  lemma QnEntry()
    ensures "-qn (\\d+)" in StandardTable() && StandardTable()["-qn (\\d+)"].replace == Some("-qn id")
    ensures StandardTable()["-qn (\\d+)"].handler.action == QQAccount
  {
    StandardFiled();
    GroupCommandTexts();
    IdDecls();
  }

  /** `get_qq_account` is listed under its display text with its summary. */
  lemma QnHelpLine(order: seq<string>)
    requires Enumerates(order, StandardTable().Keys)
    ensures "-qn id" + "    " + "获取QQ号码/群号码" in HelpLines(StandardTable(), order)[1..]
  {
    QnEntry();
    StandardHandlers();
    SummaryHelpLine(StandardTable(), order, "-qn (\\d+)", "-qn id");
  }

  lemma FriendRefreshDecl()
    ensures Decls()[5] == Decl(Literal("-fr"), false, None, FriendRefresh)
  {
  }
}
