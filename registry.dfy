/** Registration: `@register(command, replace)` tags a handler method with
    its pattern text and an optional display text, and `_load_commands`
    files every tagged method in `_command_map`, a dict keyed by the
    pattern text whose values are (compiled pattern, handler, replace). */
module Registry {
  import opened Options
  import opened Dict
  import opened Pattern

  /** What each command method of the interpreter does. */
  datatype Action =
    | Help           // help_info
    | OnlineFriends  // list_online_friends
    | Groups         // list_groups
    | Discussions    // list_discu
    | AtMessage      // send_at_message
    | QQAccount      // get_qq_account
    | Restart        // restart_webqq
    | Stop           // stop_webqq
    | Start          // start_webqq
    | GroupRefresh   // refresh_group
    | FriendRefresh  // refresh_friend_info

  /** How many positional arguments the method takes after `self`. */
  function Arity(a: Action): nat
  {
    match a
    case AtMessage => 2
    case QQAccount => 1
    case GroupRefresh => 1
    case _ => 0
  }

  /** A method docstring as the source writes it: a space, a one-line
      summary, then the newline and the eight spaces before the closing quotes. */
  function DocString(summary: string): string
  {
    " " + summary + "\n        "
  }

  /** The one-line summary of the method's docstring; `refresh_friend_info`
      has no docstring. */
  function Summary(a: Action): Option<string>
  {
    match a
    case Help => Some("显示帮助信息")
    case OnlineFriends => Some("获取在线好友")
    case Groups => Some("获取群列表")
    case Discussions => Some("获取讨论组列表")
    case AtMessage => Some("给id发送消息, id 是对象的唯一id, content 是发送的内容")
    case QQAccount => Some("获取QQ号码/群号码")
    case Restart => Some("重新登录WebQQ")
    case Stop => Some("退出WebQQ")
    case Start => Some("启动WebQQ")
    case GroupRefresh => Some("手动刷新 id 对应群的成员信息")
    case FriendRefresh => None
  }

  /** The method's `__doc__`. */
  function Doc(a: Action): Option<string>
  {
    match Summary(a)
    case None => None
    case Some(x) => Some(DocString(x))
  }

  /** A bound command method: what it does and its `__doc__`. */
  datatype Handler = Handler(action: Action, doc: Option<string>)

  /** The interpreter's method for `a`. */
  function Method(a: Action): Handler
  {
    Handler(a, Doc(a))
  }

  /** What `@register(command, replace)` attaches to a handler method. */
  datatype Registration = Registration(command: string, replace: Option<string>, handler: Handler)

  /** A value of `_command_map`: the compiled pattern, the handler and the display text. */
  datatype Entry = Entry(matcher: Matcher, handler: Handler, replace: Option<string>)

  /** A registration whose pattern compiles and defines as many groups as
      its handler takes arguments. */
  predicate Loadable(r: Registration)
  {
    Compile(r.command).Some? && GroupCount(Compile(r.command).value) == Arity(r.handler.action)
  }

  function EntryOf(r: Registration): Entry
    requires Loadable(r)
  {
    Entry(Compile(r.command).value, r.handler, r.replace)
  }

  function RegistrationPairs(regs: seq<Registration>): (p: seq<(string, Entry)>)
    requires forall i :: 0 <= i < |regs| ==> Loadable(regs[i])
    ensures |p| == |regs|
  {
    seq(|regs|, i requires 0 <= i < |regs| => (regs[i].command, EntryOf(regs[i])))
  }

  /** `_command_map` after `_load_commands` has filed `regs` in turn. */
  function Table(regs: seq<Registration>): map<string, Entry>
    requires forall i :: 0 <= i < |regs| ==> Loadable(regs[i])
  {
    Assigned(RegistrationPairs(regs))
  }

  lemma TableSnoc(regs: seq<Registration>, r: Registration)
    requires forall i :: 0 <= i < |regs| ==> Loadable(regs[i])
    requires Loadable(r)
    ensures Table(regs + [r]) == Table(regs)[r.command := EntryOf(r)]
  {
    assert RegistrationPairs(regs + [r]) == RegistrationPairs(regs) + [(r.command, EntryOf(r))];
    AssignedSnoc(RegistrationPairs(regs), (r.command, EntryOf(r)));
  }

  /** The table is keyed by pattern text: its keys are exactly the registered
      patterns, so two registrations of one pattern leave one entry. */
  lemma TableKeys(regs: seq<Registration>)
    requires forall i :: 0 <= i < |regs| ==> Loadable(regs[i])
    ensures Table(regs).Keys == set i | 0 <= i < |regs| :: regs[i].command
  {
    var p := RegistrationPairs(regs);
    assert (set i | 0 <= i < |p| :: p[i].0) == set i | 0 <= i < |regs| :: regs[i].command by {
      forall i | 0 <= i < |regs| ensures p[i].0 == regs[i].command { }
    }
  }

  /** The entry of a pattern holds the handler and display text of its last registration. */
  lemma TableLaterWins(regs: seq<Registration>, i: nat)
    requires forall j :: 0 <= j < |regs| ==> Loadable(regs[j])
    requires i < |regs|
    requires forall j :: i < j < |regs| ==> regs[j].command != regs[i].command
    ensures regs[i].command in Table(regs)
    ensures Table(regs)[regs[i].command] == Entry(Compile(regs[i].command).value, regs[i].handler, regs[i].replace)
  {
    var p := RegistrationPairs(regs);
    assert LastAssignment(p, i) by {
      forall j | i < j < |p| ensures p[j].0 != p[i].0 {
        assert p[j].0 == regs[j].command;
      }
    }
  }

  /** Every entry's pattern has as many groups as its handler takes arguments. */
  predicate WellFormed(table: map<string, Entry>)
  {
    forall k :: k in table ==> GroupCount(table[k].matcher) == Arity(table[k].handler.action)
  }

  /** Every loaded entry's matcher is the compilation of its key, with as
      many groups as its handler takes arguments. */
  lemma TableWellFormed(regs: seq<Registration>)
    requires forall i :: 0 <= i < |regs| ==> Loadable(regs[i])
    ensures WellFormed(Table(regs))
    ensures forall k :: k in Table(regs) ==> Compile(k) == Some(Table(regs)[k].matcher)
  {
    var p := RegistrationPairs(regs);
    forall k | k in Table(regs)
      ensures Compile(k) == Some(Table(regs)[k].matcher)
      ensures GroupCount(Table(regs)[k].matcher) == Arity(Table(regs)[k].handler.action)
    {
      var i :| 0 <= i < |p| && p[i] == (k, Table(regs)[k]);
      assert Loadable(regs[i]);
    }
  }

  /** A registration's pattern text written in its shape: the matcher it
      stands for and whether it carries a leading `^`. */
  datatype Decl = Decl(matcher: Matcher, anchored: bool, replace: Option<string>, action: Action)

  function PatternText(d: Decl): string
  {
    (if d.anchored then "^" else "") + Source(d.matcher)
  }

  /** `@register(command, replace)` on the method for `d.action`, whose
      docstring `docs` gives. */
  function Register(d: Decl, docs: Action -> Option<string>): Registration
  {
    Registration(PatternText(d), d.replace, Handler(d.action, docs(d.action)))
  }

  function Registrations(ds: seq<Decl>, docs: Action -> Option<string>): (rs: seq<Registration>)
    ensures |rs| == |ds|
  {
    seq(|ds|, i requires 0 <= i < |ds| => Register(ds[i], docs))
  }

  /** The prefix is plain text and the pattern has as many groups as the
      handler takes arguments. */
  predicate Shaped(d: Decl)
  {
    IsPlain(d.matcher.prefix) && GroupCount(d.matcher) == Arity(d.action)
  }

  /** No declaration's prefix is a prefix of another's. */
  predicate PrefixFree(ds: seq<Decl>)
  {
    forall i, j :: 0 <= i < |ds| && 0 <= j < |ds| && i != j ==>
      !(ds[i].matcher.prefix <= ds[j].matcher.prefix)
  }

  /** A well-shaped declaration loads, and its entry holds its matcher. */
  lemma RegisterLoadable(d: Decl, docs: Action -> Option<string>)
    requires Shaped(d)
    ensures Loadable(Register(d, docs))
    ensures EntryOf(Register(d, docs)) == Entry(d.matcher, Handler(d.action, docs(d.action)), d.replace)
  {
    CompilePatternText(d);
  }

  /** A declaration's text compiles back to its matcher. */
  lemma CompilePatternText(d: Decl)
    requires IsPlain(d.matcher.prefix)
    ensures Compile(PatternText(d)) == Some(d.matcher)
  {
    CompileSource(d.matcher);
    assert PatternText(d) == Source(d.matcher) || PatternText(d) == "^" + Source(d.matcher);
  }

  lemma RegistrationsLoadable(ds: seq<Decl>, docs: Action -> Option<string>)
    requires forall i :: 0 <= i < |ds| ==> Shaped(ds[i])
    ensures forall i :: 0 <= i < |ds| ==> Loadable(Registrations(ds, docs)[i])
  {
    forall i | 0 <= i < |ds| ensures Loadable(Registrations(ds, docs)[i]) {
      RegisterLoadable(ds[i], docs);
    }
  }

  /** Distinct prefix-free declarations have distinct pattern texts, since a
      text compiles back to its matcher. */
  lemma TextsDistinct(ds: seq<Decl>, i: nat, j: nat)
    requires forall i :: 0 <= i < |ds| ==> Shaped(ds[i])
    requires PrefixFree(ds)
    requires i < |ds| && j < |ds| && PatternText(ds[i]) == PatternText(ds[j])
    ensures i == j
  {
    CompilePatternText(ds[i]);
    CompilePatternText(ds[j]);
    assert ds[i].matcher.prefix <= ds[j].matcher.prefix;
  }

  /** The pattern texts of the declarations, in order. */
  function Texts(ds: seq<Decl>): (ts: seq<string>)
    ensures |ts| == |ds|
  {
    seq(|ds|, i requires 0 <= i < |ds| => PatternText(ds[i]))
  }

  /** Loading well-shaped, prefix-free declarations files each one under its
      own pattern text: the entry under a declaration's text is its matcher,
      handler and display text. */
  lemma DeclEntries(ds: seq<Decl>, docs: Action -> Option<string>)
    requires forall i :: 0 <= i < |ds| ==> Shaped(ds[i])
    requires PrefixFree(ds)
    ensures forall i :: 0 <= i < |ds| ==> Loadable(Registrations(ds, docs)[i])
    ensures forall i :: 0 <= i < |ds| ==>
      && PatternText(ds[i]) in Table(Registrations(ds, docs))
      && Table(Registrations(ds, docs))[PatternText(ds[i])]
           == Entry(ds[i].matcher, Handler(ds[i].action, docs(ds[i].action)), ds[i].replace)
  {
    RegistrationsLoadable(ds, docs);
    var rs := Registrations(ds, docs);
    forall i | 0 <= i < |ds|
      ensures PatternText(ds[i]) in Table(rs)
      ensures Table(rs)[PatternText(ds[i])] == Entry(ds[i].matcher, Handler(ds[i].action, docs(ds[i].action)), ds[i].replace)
    {
      forall j | i < j < |rs| ensures rs[j].command != rs[i].command {
        if rs[j].command == rs[i].command {
          TextsDistinct(ds, i, j);
        }
      }
      TableLaterWins(rs, i);
      RegisterLoadable(ds[i], docs);
    }
  }

  /** The table's keys are the declarations' texts... */
  lemma TextsAreKeys(ds: seq<Decl>, docs: Action -> Option<string>)
    requires forall i :: 0 <= i < |ds| ==> Loadable(Registrations(ds, docs)[i])
    ensures forall k :: k in Texts(ds) <==> k in Table(Registrations(ds, docs))
  {
    var rs := Registrations(ds, docs);
    var texts := Texts(ds);
    TableKeys(rs);
    assert forall i :: 0 <= i < |rs| ==> rs[i].command == texts[i];
    KeysOfCommands(rs, texts);
  }

  /** Two lists whose elements pair up have the same elements. */
  lemma KeysOfCommands(rs: seq<Registration>, texts: seq<string>)
    requires |rs| == |texts|
    requires forall i :: 0 <= i < |rs| ==> rs[i].command == texts[i]
    ensures forall k :: k in texts <==> k in (set i | 0 <= i < |rs| :: rs[i].command)
  {
    forall k ensures k in texts <==> k in (set i | 0 <= i < |rs| :: rs[i].command) {
      if k in texts {
        var i :| 0 <= i < |texts| && texts[i] == k;
        assert rs[i].command == k;
      }
    }
  }

  /** ... each of them once, so the table has as many keys as there are
      declarations. */
  lemma DeclKeys(ds: seq<Decl>, docs: Action -> Option<string>)
    requires forall i :: 0 <= i < |ds| ==> Shaped(ds[i])
    requires PrefixFree(ds)
    ensures forall i :: 0 <= i < |ds| ==> Loadable(Registrations(ds, docs)[i])
    ensures Enumerates(Texts(ds), Table(Registrations(ds, docs)).Keys)
    ensures |Table(Registrations(ds, docs)).Keys| == |ds|
  {
    RegistrationsLoadable(ds, docs);
    TextsAreKeys(ds, docs);
    var texts := Texts(ds);
    forall i, j | 0 <= i < j < |texts| ensures texts[i] != texts[j] {
      if texts[i] == texts[j] {
        TextsDistinct(ds, i, j);
      }
    }
    EnumeratesCount(texts, Table(Registrations(ds, docs)).Keys);
  }

  /** `t` holds one entry per declaration, under the declaration's pattern
      text and with its matcher, handler and display text, and nothing
      else. */
  ghost predicate FiledBy(t: map<string, Entry>, ds: seq<Decl>)
  {
    && Enumerates(Texts(ds), t.Keys)
    && forall i :: 0 <= i < |ds| ==>
         && PatternText(ds[i]) in t
         && t[PatternText(ds[i])].matcher == ds[i].matcher
         && t[PatternText(ds[i])].handler.action == ds[i].action
         && t[PatternText(ds[i])].replace == ds[i].replace
  }

  /** Loading well-shaped, prefix-free declarations files each under its
      own text. */
  lemma DeclsFiled(ds: seq<Decl>, docs: Action -> Option<string>)
    requires forall i :: 0 <= i < |ds| ==> Shaped(ds[i])
    requires PrefixFree(ds)
    ensures forall i :: 0 <= i < |ds| ==> Loadable(Registrations(ds, docs)[i])
    ensures FiledBy(Table(Registrations(ds, docs)), ds)
  {
    DeclEntries(ds, docs);
    DeclKeys(ds, docs);
  }

  /** With prefix-free declarations, at most one pattern matches any input:
      a match starts the input with the prefix, and two prefixes of one
      string are prefixes of each other. */
  lemma MatchExclusive(ds: seq<Decl>, s: string, i: nat, j: nat)
    requires PrefixFree(ds)
    requires i < |ds| && j < |ds|
    requires Match(ds[i].matcher, s).Some? && Match(ds[j].matcher, s).Some?
    ensures i == j
  {
    var p, q := ds[i].matcher.prefix, ds[j].matcher.prefix;
    if |p| <= |q| {
      assert p == s[..|p|] == q[..|p|];
    }
  }

  /** The eleven decorated methods, in the order `inspect.getmembers` lists
      them (by name): get_qq_account, help_info, list_discu, list_groups,
      list_online_friends, refresh_friend_info, refresh_group, restart_webqq,
      send_at_message, start_webqq, stop_webqq. */
  function Decls(): seq<Decl>
  {
    [ Decl(Digits("-qn "), false, Some("-qn id"), QQAccount),
      Decl(Literal("-help"), false, None, Help),
      Decl(Literal("-dlist"), false, None, Discussions),
      Decl(Literal("-glist"), false, None, Groups),
      Decl(Literal("-list"), false, None, OnlineFriends),
      Decl(Literal("-fr"), false, None, FriendRefresh),
      Decl(Digits("-gr "), false, Some("-gr id"), GroupRefresh),
      Decl(Literal("-restart"), false, None, Restart),
      Decl(DigitsRest("#"), true, Some("#id content"), AtMessage),
      Decl(Literal("-start"), false, None, Start),
      Decl(Literal("-stop"), false, None, Stop) ]
  }

  /** The registrations `_load_commands` finds. */
  function Commands(): (cs: seq<Registration>)
    ensures |cs| == 11
  {
    Registrations(Decls(), Doc)
  }

  /** The pattern texts of the listing commands are the ones written in the
      decorators. */
  lemma ListCommandTexts()
    ensures PatternText(Decls()[1]) == "-help"
    ensures PatternText(Decls()[2]) == "-dlist"
    ensures PatternText(Decls()[3]) == "-glist"
    ensures PatternText(Decls()[4]) == "-list"
  {
  }

  /** So are those of the session and refresh commands... */
  lemma SessionCommandTexts()
    ensures PatternText(Decls()[5]) == "-fr"
    ensures PatternText(Decls()[7]) == "-restart"
    ensures PatternText(Decls()[9]) == "-start"
    ensures PatternText(Decls()[10]) == "-stop"
  {
  }

  /** ... and those of the commands that capture an id. */
  lemma GroupCommandTexts()
    ensures PatternText(Decls()[0]) == "-qn (\\d+)"
    ensures PatternText(Decls()[6]) == "-gr (\\d+)"
    ensures PatternText(Decls()[8]) == "^#(\\d+)(.*)"
  {
  }

  /** The two strings differ at index `k`. */
  predicate DifferAt(p: string, q: string, k: nat)
  {
    k < |p| && k < |q| && p[k] != q[k]
  }

  /** No command's literal prefix is a prefix of another's, so no input can
      start with two of them. */
  lemma DeclsPrefixFree()
    ensures PrefixFree(Decls())
  {
    var ds := Decls();
    forall i, j | 0 <= i < |ds| && 0 <= j < |ds| && i != j
      ensures !(ds[i].matcher.prefix <= ds[j].matcher.prefix)
    {
      var p, q := ds[i].matcher.prefix, ds[j].matcher.prefix;
      assert DifferAt(p, q, 0) || DifferAt(p, q, 1) || DifferAt(p, q, 2) || DifferAt(p, q, 3);
    }
  }

  // The prefixes are plain text; three small lemmas keep the evaluation of
  // `IsPlain` on literal text cheap.

  lemma IdPrefixesPlain()
    ensures IsPlain("-qn ") && IsPlain("-gr ") && IsPlain("#")
  {
  }

  lemma ListPrefixesPlain()
    ensures IsPlain("-help") && IsPlain("-dlist") && IsPlain("-glist") && IsPlain("-list")
  {
  }

  lemma SessionPrefixesPlain()
    ensures IsPlain("-fr") && IsPlain("-restart") && IsPlain("-start") && IsPlain("-stop")
  {
  }

  /** Every command's prefix is plain text and every pattern has as many
      groups as its handler takes arguments. */
  lemma DeclsShaped()
    ensures forall i :: 0 <= i < |Decls()| ==> Shaped(Decls()[i])
  {
    IdPrefixesPlain();
    ListPrefixesPlain();
    SessionPrefixesPlain();
  }

  /** The interpreter's `_command_map`. */
  function StandardTable(): (t: map<string, Entry>)
    ensures WellFormed(t)
  {
    DeclsShaped();
    RegistrationsLoadable(Decls(), Doc);
    TableWellFormed(Commands());
    Table(Commands())
  }

  /** The standard table has eleven keys, the entry of each command's pattern
      is that command's matcher, handler and display text, and every entry's
      pattern defines as many groups as its handler takes arguments. */
  lemma StandardTableEntries()
    ensures Enumerates(Texts(Decls()), StandardTable().Keys)
    ensures |StandardTable().Keys| == 11
    ensures forall i :: 0 <= i < 11 ==>
      && PatternText(Decls()[i]) in StandardTable()
      && StandardTable()[PatternText(Decls()[i])] == Entry(Decls()[i].matcher, Method(Decls()[i].action), Decls()[i].replace)
    ensures WellFormed(StandardTable())
  {
    DeclsShaped();
    DeclsPrefixFree();
    DeclEntries(Decls(), Doc);
    DeclKeys(Decls(), Doc);
  }

  /** The standard table is filed by the eleven declarations, whose
      prefixes are prefix-free. */
  lemma StandardFiled()
    ensures FiledBy(StandardTable(), Decls()) && PrefixFree(Decls())
  {
    DeclsShaped();
    DeclsPrefixFree();
    DeclsFiled(Decls(), Doc);
  }

  /** Every entry of a table loaded from declarations holds its method with
      the docstring `docs` gives. */
  lemma DeclHandlers(ds: seq<Decl>, docs: Action -> Option<string>)
    requires forall i :: 0 <= i < |ds| ==> Shaped(ds[i])
    requires PrefixFree(ds)
    ensures forall i :: 0 <= i < |ds| ==> Loadable(Registrations(ds, docs)[i])
    ensures var t := Table(Registrations(ds, docs));
      forall k :: k in t ==> t[k].handler == Handler(t[k].handler.action, docs(t[k].handler.action))
  {
    DeclEntries(ds, docs);
    DeclKeys(ds, docs);
    var t := Table(Registrations(ds, docs));
    var ts := Texts(ds);
    forall k | k in t ensures t[k].handler == Handler(t[k].handler.action, docs(t[k].handler.action)) {
      assert k in ts;
      var i :| 0 <= i < |ts| && ts[i] == k;
    }
  }

  /** Every entry of the standard table holds the decorated method with its
      own docstring. */
  lemma StandardHandlers()
    ensures forall k :: k in StandardTable() ==>
      StandardTable()[k].handler == Method(StandardTable()[k].handler.action)
  {
    DeclsShaped();
    DeclsPrefixFree();
    DeclHandlers(Decls(), Doc);
  }
}
