/** The outside world as the interpreter sees it: the effects it causes
    (messages to the operator, session control, messages to QQ contacts) and
    the data it reads from the QQ hub, the roster and `UniqueIds`. The hub's
    lookups are foreign code, so they are taken as given functions. Each
    command is run against a snapshot of the hub handed in by the caller;
    how a command (`-gr`, `-fr`, `-restart`) changes the hub is not part of
    the snapshot. */
module Services {
  import opened Options

  /** One call out of the interpreter, recorded in the order it is made. */
  datatype Effect =
    | ControlMsg(text: string)                        // xmpp_client.send_control_msg
    | Status(text: string)                            // xmpp_client.send_status
    | HubDisconnect                                   // qq_client.hub.disconnect
    | HubConnect                                      // qq_client.hub.connect
    | ClientDisconnect                                // qq_client.disconnect
    | ClientConnect                                   // qq_client.connect
    | SendMessageWithAid(id: string, content: string) // qq_client.send_message_with_aid
    | RefreshGroupMembers(id: string)                 // qq_client.hub.refresh_group_info
    | RefreshFriends                                  // qq_client.hub.refresh_friend_info
    | Raise(error: string)                            // an exception leaves the handler, and parse, here

  /** What `UniqueIds.get` says an id stands for: `T_FRI`, `T_GRP` or anything else. */
  datatype Kind = FriendKind | GroupKind | OtherKind

  /** A friend category of the roster. */
  datatype Category = Category(index: int, name: string, sort: int)

  /** A roster entry; `id` is the printed unique id, `markname` is "" when unset,
      `category` is the index of the friend's category. */
  datatype Friend = Friend(id: string, nick: string, markname: string, status: string, category: int)

  /** A group or a discussion as listed by the hub. */
  datatype Item = Item(id: string, name: string)

  datatype Hub = Hub(
    categories: seq<Category>,                 // hub.get_friends().categories
    friends: seq<Friend>,                      // hub.get_friends().info
    categoryOrder: seq<int>,                   // the order Python iterates the dict of categories in
    groups: Option<seq<Item>>,                 // hub.get_groups(): None when it is falsy
    discus: Option<seq<Item>>,                 // hub.get_discu(): None when it is falsy
    resolve: nat -> (int, Kind),               // UniqueIds.get
    showName: int -> string,                   // get_friends().get_show_name
    groupName: int -> string,                  // get_groups().get_group_name, when get_groups() is truthy
    account: (int, Kind) -> Option<string>,    // hub.get_account: None when it is falsy
    refreshGroup: string -> (bool, string))    // hub.refresh_group_info: (success, info)
}
