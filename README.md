# magpie command interpreter, modelled in Dafny

Magpie bridges WebQQ and XMPP. The operator controls it by sending text
commands over XMPP, and `magpie/command.py` interprets them.

- `@register(pattern, replace)` tags a method of the `Command` class with a
  regular-expression pattern and an optional display text.
- `_load_commands` files every tagged method in a dict keyed by the pattern
  text.
- `parse(text)` runs the first entry (in dict order) whose pattern matches at
  the start of the text, passes it the captured groups and answers true.
  When nothing matches, it answers nothing.
- The eleven handlers:
  - `-help` prints the help table;
  - `-list`, `-glist` and `-dlist` print the online friends, the groups and
    the discussions;
  - `#id content` sends a message;
  - `-qn id` looks up a QQ number or group number;
  - `-restart`, `-stop` and `-start` control the session;
  - `-gr id` and `-fr` refresh group and friend data.

The model has nine modules.

- `Options` holds the option type.
- `Text` covers `\d`, `int()`, `unicode.strip()`, and `"\n".join` with its
  inverse, `split`.
- `Dict` covers the last-assignment-wins semantics of a Python dict and the
  order its keys are enumerated in.
- `Pattern` covers the three pattern shapes the interpreter registers:
  - a literal prefix;
  - a prefix followed by `(\d+)`;
  - a prefix followed by `(\d+)(.*)`.

  Each shape may be anchored with `^`. Matching is `re.match` under
  `re.M | re.S`.
- `Registry` covers registration, loading, the eleven declarations and the
  table they produce.
- `Services` holds the effects sent to the XMPP and QQ clients and the hub
  snapshot each command is run against.
- `Reports` holds the report texts and the loops that build them.
- `Dispatch` holds the dispatcher. It is the `Command` class, with:
  - the command map and the recorded trace of effects as fields;
  - one method per handler.
- `Standard` holds the facts about the interpreter's own eleven commands.

Dict iteration order is a parameter. Every result is proved either for all
orders, or for any order that enumerates the dict's keys.

## Model

| member | source | states |
|---|---|---|
| Text.DigitRun | magpie/command.py:127 | the greedy `\d+` run is a prefix of the text, made of ASCII digits, and followed by a non-digit or the end |
| Text.DigitRunUnique | magpie/command.py:133 | any digit prefix that cannot be extended is exactly the greedy run, so the group `\d+` captures is determined |
| Text.DigitsValue | magpie/command.py:137 | `int(_id)`: the decimal value of a string of ASCII digits, most significant digit first |
| Text.Strip | magpie/command.py:63-64 | the stripped docstring is empty, or neither starts nor ends with whitespace |
| Text.StripSpec | magpie/command.py:63-64 | `strip()` only removes whitespace: the input is whitespace, then the result, then whitespace |
| Text.StripIdempotent | magpie/command.py:64 | stripping twice is stripping once |
| Text.StripPadded | magpie/command.py:64 | stripping a docstring padded by whitespace gives back its unpadded text |
| Text.Join | magpie/command.py:66 | `"\n".join(info)`: the pieces in order with the separator between each two, the empty text for no pieces |
| Text.Split | magpie/command.py:66 | `split` always gives at least one piece |
| Text.SplitJoin | magpie/command.py:66 | splitting the joined help text at newlines gives back its lines, when no line holds a newline |
| Dict.Assigned | magpie/command.py:44-47 | the dict built by a sequence of assignments holds exactly the assigned keys; each value was assigned to its key, and a key's last assignment is its value |
| Dict.AssignedSnoc | magpie/command.py:44-47 | one more assignment updates that key and nothing else |
| Dict.EnumeratesCount | magpie/command.py:50 | a duplicate-free enumeration of the keys has as many elements as there are keys |
| Pattern.GroupCount | magpie/command.py:53 | how many strings `sre.groups()` yields for a pattern of each shape: none for a literal, one for `p(\d+)`, two for `p(\d+)(.*)` |
| Pattern.Match | magpie/command.py:51 | a match starts with the pattern's prefix, yields one string per group, and a `\d+` group is a non-empty digit string |
| Pattern.LiteralMatchIff | magpie/command.py:51 | a literal pattern matches exactly when it is a prefix of the text, capturing nothing |
| Pattern.DigitsMatchIff | magpie/command.py:51 | `p(\d+)` matches exactly when the text is p followed by at least one digit, and it captures the whole digit run |
| Pattern.DigitsRestMatchIff | magpie/command.py:51 | `p(\d+)(.*)` matches exactly when the text is p followed by digits, capturing the digit run and all of the rest, newlines included |
| Pattern.DigitsThen | magpie/command.py:51 | the prefix, digits, then a non-digit give the expected captures for both digit shapes |
| Pattern.PlainFromIff | magpie/command.py:45 | a prefix is plain (free of regex metacharacters) exactly when no character in it is a metacharacter |
| Pattern.IsPlainAppend | magpie/command.py:45 | two texts are both plain exactly when their concatenation is plain |
| Pattern.Compile | magpie/command.py:45 | a compiled pattern has a plain prefix and its text is the matcher's source, possibly anchored by `^` |
| Pattern.CompileSource | magpie/command.py:45 | compiling a matcher's source text, with or without `^`, gives the matcher back |
| Pattern.CompileLiteral | magpie/command.py:45 | a plain text compiles to the literal matcher, with or without `^` |
| Pattern.CompileDigits | magpie/command.py:45 | plain text followed by `(\d+)` compiles to the digit matcher |
| Pattern.CompileDigitsRest | magpie/command.py:45 | plain text followed by `(\d+)(.*)` compiles to the digit-and-rest matcher |
| Registry.Arity | magpie/command.py:128-181 | how many captured arguments each method takes besides `self`: two for `send_at_message`, one for `get_qq_account` and `refresh_group`, none for the others |
| Registry.DocString | magpie/command.py:57-59 | a method's `__doc__`: a space, the summary, a newline and the eight spaces before the closing quotes |
| Registry.Summary | magpie/command.py:57-192 | the summary line of each method's docstring, and none for `refresh_friend_info`, which has no docstring |
| Registry.Doc | magpie/command.py:57-192 | a method's `__doc__`: the docstring around its summary, or none |
| Registry.Register | magpie/command.py:18-28 | the decorator records the pattern text (the matcher's source, led by `^` when anchored), the replace text and the method with its docstring |
| Registry.RegistrationPairs | magpie/command.py:40-47 | loading produces one key/entry pair per registration |
| Registry.Table | magpie/command.py:39-47 | `_command_map` after `_load_commands`: the dict left by assigning each registration's entry under its pattern text, in getmembers order |
| Registry.TableSnoc | magpie/command.py:44-47 | loading one more registration assigns its pattern text to its entry |
| Registry.TableKeys | magpie/command.py:44 | the map's keys are exactly the registered pattern texts |
| Registry.TableLaterWins | magpie/command.py:44-47 | the entry for a pattern text is the compiled pattern, handler and replace of the last registration with that text |
| Registry.TableWellFormed | magpie/command.py:45-47 | every loaded entry's matcher is the compilation of its key, and its handler takes as many arguments as the matcher has groups |
| Registry.Registrations | magpie/command.py:18-28 | the decorator turns each declaration into one registration |
| Registry.RegisterLoadable | magpie/command.py:24-27 | a registration records the pattern text and replace text and loads to the declared matcher, handler and docstring |
| Registry.CompilePatternText | magpie/command.py:45 | a declaration's pattern text compiles to its matcher |
| Registry.RegistrationsLoadable | magpie/command.py:40-45 | every registration made from a well-shaped declaration compiles |
| Registry.TextsDistinct | magpie/command.py:44 | in a prefix-free set of declarations, no two share a pattern text, so none is overwritten |
| Registry.Texts | magpie/command.py:44 | there is one pattern text per declaration |
| Registry.DeclEntries | magpie/command.py:44-47 | each declaration is filed under its pattern text with its own matcher, handler and replace |
| Registry.TextsAreKeys | magpie/command.py:44 | the loaded keys are exactly the declared pattern texts |
| Registry.DeclKeys | magpie/command.py:44 | the pattern texts enumerate the map's keys without repetition, so the map has one key per declaration |
| Registry.DeclsFiled | magpie/command.py:39-47 | loading declarations files each one under its text, with its matcher, action and replace |
| Registry.MatchExclusive | magpie/command.py:50-52 | when no prefix extends another, at most one declaration matches any text |
| Registry.Decls | magpie/command.py:56-191 | the eleven `@register` lines: each command's matcher, `^` anchor, replace text and method, in getmembers' alphabetical order |
| Registry.Commands | magpie/command.py:56-194 | the interpreter registers eleven commands |
| Registry.ListCommandTexts | magpie/command.py:56-125 | the pattern texts of `-help`, `-dlist`, `-glist` and `-list` |
| Registry.SessionCommandTexts | magpie/command.py:158-194 | the pattern texts of `-fr`, `-restart`, `-start` and `-stop` |
| Registry.GroupCommandTexts | magpie/command.py:127-189 | the pattern texts of `-qn (\d+)`, `-gr (\d+)` and `^#(\d+)(.*)` |
| Registry.DeclsPrefixFree | magpie/command.py:56-194 | no command's literal prefix is a prefix of another's |
| Registry.DeclsShaped | magpie/command.py:56-194 | every registered pattern has one of the three modelled shapes with a plain prefix |
| Registry.StandardTable | magpie/command.py:33-47 | the interpreter's command map is well formed |
| Registry.StandardTableEntries | magpie/command.py:33-47 | the command map has eleven keys, each mapped to its declaration's matcher, method and replace |
| Registry.StandardFiled | magpie/command.py:33-47 | the command map files every declaration under its own text, and the declarations are prefix-free |
| Registry.DeclHandlers | magpie/command.py:44-47 | every loaded handler is the declared method with its docstring |
| Registry.StandardHandlers | magpie/command.py:44-47 | every handler in the interpreter's map carries its method's own docstring |
| Reports.IsOnline | magpie/command.py:80 | a friend is listed when its status is `online` or `away` |
| Reports.CategoryTable | magpie/command.py:73-76 | the categories by index as the first loop files them, a later category with the same index replacing an earlier one |
| Reports.CategoryPairs | magpie/command.py:74-76 | one dict assignment per friend category |
| Reports.CategoryTableSnoc | magpie/command.py:74-76 | a later category with the same index replaces the earlier one |
| Reports.Members | magpie/command.py:79-85 | a category's list holds exactly the roster's online or away friends of that category |
| Reports.BucketOf | magpie/command.py:75-85 | a category's section: its name and sort key, and the online or away friends filed under its index (see `Members`) |
| Reports.SortedBySortPairs | magpie/command.py:90 | in a list sorted by the sort key, any earlier section's key is no greater than any later one's |
| Reports.InsertBySort | magpie/command.py:90 | one insertion step of the sort: the new section goes after every leading section whose sort key is not larger (its properties are `InsertBySortSorted` and `InsertBySortStable`) |
| Reports.InsertBySortSorted | magpie/command.py:90 | insertion keeps the list sorted by the sort key and a permutation of its input plus the new section |
| Reports.InsertBySortStable | magpie/command.py:90 | insertion puts the new section after every section with the same sort key, and leaves the order of the others alone |
| Reports.SortBySort | magpie/command.py:90 | `sorted` by the sort key returns a sorted permutation of its input |
| Reports.SortBySortStable | magpie/command.py:90 | `sorted` is stable: the buckets with any one sort key come out in the order they went in |
| Reports.DictBuckets | magpie/command.py:87-88 | one section per category key, in dict order |
| Reports.OnlineSections | magpie/command.py:87-90 | the sections of `-list`: one per category key in dict order, then sorted by sort key (its properties are the `OnlineSections…` lemmas below) |
| Reports.OnlineSectionsAreBuckets | magpie/command.py:74-90 | a section is listed exactly when it is the section of some existing category |
| Reports.OnlineSectionsCover | magpie/command.py:74-90 | there is one section per category and every category has its section |
| Reports.OnlineSectionsSorted | magpie/command.py:90 | sections appear in non-decreasing sort order |
| Reports.OnlineSectionsStable | magpie/command.py:87-90 | sections that tie on the sort key keep the order the category dict is iterated in |
| Reports.OnlineSectionsSound | magpie/command.py:79-85 | every listed friend is in the roster, online or away, and in an existing category |
| Reports.OnlineSectionsComplete | magpie/command.py:79-85 | every online or away friend of an existing category is listed |
| Reports.Title | magpie/command.py:93 | a section title is `== name ==` |
| Reports.Nick | magpie/command.py:95-98 | a friend with a markname shows as `markname(nick)`, otherwise as its nick |
| Reports.FriendLine | magpie/command.py:100-101 | a friend line is `(id)nick[status]` |
| Reports.FriendLines | magpie/command.py:94-101 | one line per friend |
| Reports.SectionLines | magpie/command.py:92-101 | each section in order contributes its title followed by one line per friend |
| Reports.OnlineReport | magpie/command.py:68-103 | the `-list` lines: the header, then the lines of the sections sorted by sort key from the dict-order buckets |
| Reports.CategoryBuckets | magpie/command.py:73-76 | the loop builds an empty section for exactly the category indices, the last category with an index winning |
| Reports.FileFriends | magpie/command.py:79-85 | the loop files each online or away friend in its category's list and skips friends whose category is missing |
| Reports.ReportLines | magpie/command.py:91-101 | the loop emits the header, then each section's title followed by its friend lines |
| Reports.AppendFriendLines | magpie/command.py:94-101 | the inner loop appends one formatted line per friend |
| Reports.OnlineFriendsLines | magpie/command.py:68-103 | the whole `-list` computation yields the specified online report |
| Reports.ItemLine | magpie/command.py:113 | an item line is `(id) name` |
| Reports.Listing | magpie/command.py:105-125 | the `-glist`/`-dlist` lines: the header, then one item line per group or discussion when the hub's value is truthy |
| Reports.ListingLines | magpie/command.py:105-125 | the listing is the header alone when the hub has nothing, and otherwise the header followed by one `(id) name` line per item |
| Reports.AccountReport | magpie/command.py:137-156 | the `-qn` message: not a friend or group; or `name 的<kind>是 account`; or `获取name的<kind>失败` when no account is found; and no message for a group id while `get_groups()` is falsy, where `get_group_name` is called on `None` |
| Reports.AccountReportCases | magpie/command.py:133-156 | only a group id with a falsy `get_groups()` gets no message; a non-friend, non-group id is reported as such; otherwise the report names the kind and the name, and the account when one is found |
| Reports.AccountEffects | magpie/command.py:133-156 | `get_qq_account` does exactly one thing: it sends its report, or raises `AttributeError` exactly when there is no report |
| Reports.AccountRaises | magpie/command.py:143-146 | a group id while `get_groups()` is falsy ends in `AttributeError` alone |
| Reports.RefreshGroupReport | magpie/command.py:184-189 | the `-gr` message: `[S] info` on failure, `[S] 刷新 info 成员信息` on success |
| Reports.RefreshGroupReportCases | magpie/command.py:184-189 | both refresh reports start with `[S] ` and quote the hub's info; the success text is longer by the added words |
| Dispatch.FirstMatch | magpie/command.py:50-54 | no entry is chosen exactly when no pattern matches; otherwise the chosen entry matches and all earlier ones do not |
| Dispatch.FirstMatchAt | magpie/command.py:50-54 | the first matching position in the enumeration is the one chosen |
| Dispatch.FirstMatchExclusive | magpie/command.py:50-54 | when only one key's pattern can match, that key is chosen whatever the dict order |
| Dispatch.ExclusiveOrderIndependent | magpie/command.py:50-54 | with exclusive patterns, two dict orders agree on whether anything matches, on the key chosen and, except for `-help`, on the effects |
| Dispatch.DeclsExclusive | magpie/command.py:50-52 | a map filed from prefix-free declarations has exclusive patterns |
| Dispatch.DeclRoute | magpie/command.py:50-54 | text matching a declaration runs that declaration's handler on its captures |
| Dispatch.DeclsNoMatch | magpie/command.py:50-54 | text no declaration matches is answered with nothing and does nothing |
| Dispatch.Display | magpie/command.py:62 | a command is listed under its replace text when it has one, else under its pattern text |
| Dispatch.DocText | magpie/command.py:63 | the handler's docstring, or the empty text when it has none |
| Dispatch.HelpLine | magpie/command.py:62-64 | a help line is the displayed command, four spaces and the stripped docstring |
| Dispatch.HelpLines | magpie/command.py:60-64 | the help has the header line plus one line per map entry |
| Dispatch.HelpMessage | magpie/command.py:66 | the help text is the help lines joined by newlines |
| Dispatch.HelpCoversTable | magpie/command.py:60-64 | the help starts with its header and has one line for every registered command |
| Dispatch.HelpSplits | magpie/command.py:66 | the sent help text splits back into the help lines |
| Dispatch.HelpLinesOneLine | magpie/command.py:60-66 | no help line contains a newline |
| Dispatch.HelpLineText | magpie/command.py:62-64 | a help line is the replace text (or the pattern) followed by four spaces and the stripped docstring, which is empty when there is none |
| Dispatch.HelpLineOneLine | magpie/command.py:62-64 | a help line has no newline when its displayed command has none |
| Dispatch.SummaryShape | magpie/command.py:57-192 | every stripped docstring is non-empty and starts and ends with a non-space |
| Dispatch.SummaryOneLine | magpie/command.py:57-192 | no stripped docstring contains a newline |
| Dispatch.HandlerEffects | magpie/command.py:56-194 | what each of the eleven handlers sends, in order, for its captures, the command map and the hub snapshot |
| Dispatch.Dispatched | magpie/command.py:49-54 | what `parse` causes: the first matching entry's handler effects on its captures, or nothing |
| Dispatch.HandlerReports | magpie/command.py:56-194 | each handler except `#id content`, `-restart`, `-stop` and `-start` sends exactly one control message; those four send none, and so does `-qn` when it raises on a group id |
| Dispatch.Command.constructor | magpie/command.py:33-37 | the new interpreter's map is the table of its registrations, and its trace is empty |
| Dispatch.Command.LoadCommands | magpie/command.py:39-47 | the loop adds every registration to the map, later ones with the same text winning |
| Dispatch.Command.Emit | magpie/command.py:66-194 | one outbound call (`send_control_msg`, `send_status`, a connect or disconnect, `send_message_with_aid`, a refresh) is appended to the trace and nothing else changes |
| Dispatch.Command.Parse | magpie/command.py:49-54 | answers true exactly when some pattern matches; against the given hub snapshot, the trace grows by the effects of the first matching handler, and by nothing otherwise |
| Dispatch.Command.Run | magpie/command.py:53 | calls the handler for an action with the captured groups against the given hub snapshot |
| Dispatch.Command.HelpInfo | magpie/command.py:56-66 | sends the help text as one control message |
| Dispatch.Command.ListOnlineFriends | magpie/command.py:68-103 | sends the online-friends report as one control message |
| Dispatch.Command.ListGroups | magpie/command.py:105-114 | sends the group listing as one control message |
| Dispatch.Command.ListDiscu | magpie/command.py:116-125 | sends the discussion listing as one control message |
| Dispatch.Command.SendAtMessage | magpie/command.py:127-131 | sends the content to the id and reports nothing |
| Dispatch.Command.GetQQAccount | magpie/command.py:133-156 | sends the account report for the id, or raises `AttributeError` before any report on a group id while `get_groups()` is falsy |
| Dispatch.Command.RestartWebQQ | magpie/command.py:158-164 | sets the status, then disconnects and reconnects the hub |
| Dispatch.Command.StopWebQQ | magpie/command.py:166-171 | sets the status and disconnects the QQ client |
| Dispatch.Command.StartWebQQ | magpie/command.py:173-178 | sets the status and connects the QQ client |
| Dispatch.Command.RefreshGroup | magpie/command.py:180-189 | refreshes the group and reports the outcome |
| Dispatch.Command.RefreshFriendInfo | magpie/command.py:191-194 | refreshes friend data and reports it |
| Dispatch.ParseTwice | magpie/command.py:49-54 | parsing the same text twice against the same hub snapshot leaves the map unchanged and causes the same effects both times |
| Standard.StandardOrderIndependent | magpie/command.py:50-54 | for the interpreter's own commands, any two dict orders choose the same command for any text, and give the same effects except for `-help` |
| Standard.LeadNoMatch | magpie/command.py:51 | when every prefix starts with `-` or `#`, text starting with anything else matches nothing |
| Standard.StandardIgnores | magpie/command.py:49-54 | text that is empty or starts with neither `-` nor `#` is not a command and causes nothing |
| Standard.HelpMeRunsHelp | magpie/command.py:49-57 | `-helpme` runs `-help`, because matching is a prefix match |
| Standard.QnRoute | magpie/command.py:133-156 | `-qn` followed by digits runs the account lookup on exactly those digits, whatever follows them |
| Standard.QnTrailingText | magpie/command.py:133 | `-qn 12abc` looks up id `12` |
| Standard.QnGroupWithoutGroups | magpie/command.py:133-146 | `-qn` on a group id while `get_groups()` is falsy raises `AttributeError` and sends the operator nothing |
| Standard.AtMessageRoute | magpie/command.py:127-131 | `#` followed by digits sends the rest of the text to that id |
| Standard.AtMessageCaptures | magpie/command.py:127-131 | `#42 hello` sends ` hello` to id 42 |
| Standard.AtMessageMultiline | magpie/command.py:45-51 | under `re.S`, the content group runs over newlines |
| Standard.StandardHelpSize | magpie/command.py:60-64 | the help has twelve lines: the header and eleven commands |
| Standard.PatternsOneLine | magpie/command.py:56-191 | no pattern text contains a newline |
| Standard.DisplaysOneLine | magpie/command.py:62 | no displayed command text contains a newline |
| Standard.FiledHelpSplits | magpie/command.py:60-66 | the help of a map filed from one-line declarations splits back into its lines |
| Standard.StandardHelpSplits | magpie/command.py:60-66 | the interpreter's help text splits back into its twelve lines |
| Standard.BareHelpLine | magpie/command.py:61-64 | a command without replace text or docstring shows as its pattern followed by four spaces |
| Standard.FriendRefreshHelpLine | magpie/command.py:191-192 | `-fr` shows in the help as `-fr` and four spaces, since it has no docstring |
| Standard.FriendRefreshEntry | magpie/command.py:191-192 | `-fr` is registered without replace text, for the friend refresh |
| Standard.SummaryHelpLine | magpie/command.py:62-64 | a command with replace text shows its replace text, four spaces and its stripped docstring |
| Standard.QnEntry | magpie/command.py:133-134 | `-qn (\d+)` is registered with display text `-qn id`, for the account lookup |
| Standard.QnHelpLine | magpie/command.py:133-135 | the help shows `-qn id`, four spaces and the stripped docstring |
| Standard.HelpDecl | magpie/command.py:56-57 | `-help` is a literal pattern without replace text |
| Standard.IdDecls | magpie/command.py:127-134 | the declarations of `-qn (\d+)` and `^#(\d+)(.*)` |
| Standard.FriendRefreshDecl | magpie/command.py:191-192 | the declaration of `-fr` |

## Left out

- The regular-expression engine is modelled only for the three pattern shapes
  the interpreter registers. A pattern of any other shape does not compile in
  the model; `re.compile` errors are not modelled.
- `inspect.getmembers` is not modelled. The registrations are passed in, in
  the order getmembers would list them (alphabetical by method name).
- The XMPP and QQ clients are not modelled. Each call to them is recorded as
  an `Effect` in the interpreter's trace, in the order the calls are made.
- The hub is a snapshot with function-valued fields. It stands in for
  `UniqueIds.get`, `get_show_name`, `get_group_name`, `get_account` and
  `refresh_group_info`, whose code is not part of this model.
- The hub's own state is not modelled. Each call of `parse` is given one
  hub snapshot, and the model does not say how a command changes the hub:
  `refresh_group_info` (`-gr`), `refresh_friend_info` (`-fr`) and the
  reconnect of `-restart` may all change what later commands see.
  `ParseTwice` holds only when both calls see the same snapshot.
- A falsy value from `get_groups`, `get_discu` or `get_account` is modelled
  as `None`. `list_groups` guards against a falsy `get_groups()`;
  `get_qq_account` does not, and the model records the `AttributeError` it
  then raises as a `Raise` effect (see `AccountReport`).
- When a handler raises, `parse` raises too instead of returning. The model
  records the exception as the last effect in the trace, and `Parse` still
  answers true.
- `get_friends()` is taken to return a roster: the model has no falsy roster,
  which `list_online_friends` and `get_qq_account` would fail on.
- Logging (lines 77 and 84-85) is left out; it has no effect on the
  interpreter's state.
- The UTF-8 decoding of docstrings is left out: docstrings are Dafny strings
  from the start.
- Exceptions raised inside collaborators are left out. So is the `TypeError` a
  handler whose arity differs from the group count would raise: every
  well-formed map excludes that case.
- Python dict iteration order is not modelled. It is a parameter
  constrained only to enumerate the dict's keys. `sorted` is modelled by an
  insertion sort, which is stable like Python's, so sections that tie on the
  sort key keep that dict order.
- `sre.groupdict()` is always empty for the registered patterns, which have no
  named groups, so handlers get positional arguments only.
- `parse` answering `None` is modelled as `false`.
- The interpreter does not answer every recognised
  command with exactly one report. `#id content`, `-restart`, `-stop` and
  `-start` send no control message. The model follows the code.
