/** The access-control middleware and the admin commands of
    handlers_admin.py. `ADMIN_IDS` from the configuration is the parameter
    `adminIds`; the allow-list and the user list are the two files of a
    `FileDb.JsonStore`. */
module Admin {
  import opened Wrappers
  import opened PyText
  import opened FileDb
  import opened States

  /** The text prefixes the middleware lets through whoever sends them. */
  const OpenCommands: seq<string> := ["/start", "/help", "/allow_user", "/removeuser", "/listusers"]

  /** `text.startswith(('/start', '/help', ...))` */
  predicate IsOpenCommand(text: string) {
    exists k :: 0 <= k < |OpenCommands| && StartsWith(text, OpenCommands[k])
  }

  const Refusal := "❌ You are not authorized to use this bot."

  /** What the middleware does with an event. */
  datatype Decision = CallHandler | Refuse(reply: string)

  /** `AccessControlMiddleware.__call__`. `text` is the event's text, `None`
      when it has none; `userId` is `None` when the event has no sender. A
      user id of 0 is falsy in Python, so it is never looked up. */
  function Middleware(text: Option<string>, userId: Option<int>, adminIds: seq<int>, allowed: JsonFile): (d: Decision)
    ensures d.Refuse? ==> d.reply == Refusal
    ensures d.Refuse? <==>
      && !(text.Some? && IsOpenCommand(text.value))
      && !(userId.Some? && userId.value in adminIds)
      && !(userId.Some? && userId.value != 0 && HasId(Load(allowed), userId.value))
  {
    if text.Some? && text.value != "" && IsOpenCommand(text.value) then CallHandler
    else if userId.Some? && userId.value in adminIds then CallHandler
    else if userId.Some? && userId.value != 0 && HasId(Load(allowed), userId.value) then CallHandler
    else Refuse(Refusal)
  }

  /** Text that starts with an open command passes whoever sends it. */
  lemma OpenCommandPasses(text: string, cmd: nat, userId: Option<int>, adminIds: seq<int>, allowed: JsonFile)
    requires cmd < |OpenCommands| && StartsWith(text, OpenCommands[cmd])
    ensures Middleware(Some(text), userId, adminIds, allowed) == CallHandler
  {
    assert OpenCommands[cmd] != "";
  }

  /** An admin passes whatever the allow-list holds. */
  lemma AdminPasses(text: Option<string>, userId: int, adminIds: seq<int>, allowed: JsonFile)
    requires userId in adminIds
    ensures Middleware(text, Some(userId), adminIds, allowed) == CallHandler
  {
  }

  /** A sender who is neither admin nor on the allow-list is refused unless
      the text is an open command; a missing or unreadable allow-list admits
      no non-admin. */
  lemma OthersRefused(text: Option<string>, userId: Option<int>, adminIds: seq<int>, allowed: JsonFile)
    requires !(text.Some? && IsOpenCommand(text.value))
    requires userId.None? || (userId.value !in adminIds && (userId.value == 0 || !HasId(Load(allowed), userId.value)))
    ensures Middleware(text, userId, adminIds, allowed) == Refuse(Refusal)
  {
  }

  /** `/myaccess` is not an open command, so a sender who gets past the
      middleware never sees the "NOT allowed" answer. */
  lemma MyAccessBehindMiddleware(text: string, userId: int, adminIds: seq<int>, allowed: JsonFile)
    requires StartsWith(text, "/myaccess")
    requires Middleware(Some(text), Some(userId), adminIds, allowed) == CallHandler
    ensures MyAccess(userId, adminIds, allowed) != NotAllowedReply
  {
    forall k | 0 <= k < |OpenCommands| ensures !StartsWith(text, OpenCommands[k]) {
      assert text[1] == 'm';
      assert OpenCommands[k][1] != 'm';
    }
  }

  /** `not command.args`: aiogram passes `None` when the command has no
      arguments. */
  predicate HasArgs(args: Option<string>) {
    args.Some? && args.value != ""
  }

  /** The guards of `allow_user_command`, in the order it checks them. */
  datatype AllowStep = AllowNotAdmin | AllowUsage | AllowInvalidId | NotInUsers(id: int) | Promote(id: int, user: UserRecord)

  function AllowUserGuard(sender: int, args: Option<string>, adminIds: seq<int>, users: seq<UserRecord>): (g: AllowStep)
    ensures g == AllowNotAdmin <==> sender !in adminIds
    ensures g == AllowUsage <==> sender in adminIds && !HasArgs(args)
    ensures g == AllowInvalidId <==> sender in adminIds && HasArgs(args) && PyInt(args.value).None?
    ensures g.NotInUsers? || g.Promote? ==> sender in adminIds && HasArgs(args) && PyInt(args.value) == Some(g.id)
    ensures g.NotInUsers? <==> sender in adminIds && HasArgs(args) && PyInt(args.value).Some? && !HasId(users, PyInt(args.value).value)
    ensures g.Promote? ==> FirstWithId(users, g.id) == Some(g.user)
  {
    if sender !in adminIds then AllowNotAdmin
    else if !HasArgs(args) then AllowUsage
    else match PyInt(args.value)
      case None => AllowInvalidId
      case Some(id) =>
        match FirstWithId(users, id)
        case None => NotInUsers(id)
        case Some(u) => Promote(id, u)
  }

  function AllowReply(g: AllowStep): string {
    match g
    case AllowNotAdmin => "You are not authorized to allow users."
    case AllowUsage => "Usage: /allow_user <user_id>"
    case AllowInvalidId => "Invalid user_id."
    case NotInUsers(id) => "User <code>" + IntToString(id) + "</code> is not in the users list. They must send /start first."
    case Promote(id, u) => "User <code>" + IntToString(id) + "</code> (<b>" + u.firstName + "</b>) promoted to allowed users."
  }

  /** `allow_user_command`: only the last guard step writes the allow-list,
      and afterwards the user is allowed. The "Failed to add" branch cannot
      be taken, since adding always reports success. */
  method AllowUserCommand(sender: int, args: Option<string>, adminIds: seq<int>, store: JsonStore) returns (reply: string)
    modifies store
    ensures var g := AllowUserGuard(sender, args, adminIds, Load(old(store.users)));
      && reply == AllowReply(g)
      && store.users == old(store.users)
      && (!g.Promote? ==> store.allowed == old(store.allowed))
      && (g.Promote? ==> store.IsUserAllowed(g.id)
                         && store.allowed == (if HasId(Load(old(store.allowed)), g.id) then old(store.allowed)
                                              else Records(Load(old(store.allowed)) + [g.user])))
  {
    if sender !in adminIds {
      return "You are not authorized to allow users.";
    }
    if !HasArgs(args) {
      return "Usage: /allow_user <user_id>";
    }
    var parsed := PyInt(args.value);
    if parsed.None? {
      return "Invalid user_id.";
    }
    var userId := parsed.value;
    var user := store.GetUserById(userId);
    if user.None? {
      return "User <code>" + IntToString(userId) + "</code> is not in the users list. They must send /start first.";
    }
    var ok := store.AddAllowedUserFromUser(user.value);
    if ok {
      reply := "User <code>" + IntToString(userId) + "</code> (<b>" + user.value.firstName + "</b>) promoted to allowed users.";
    } else {
      reply := "Failed to add user to allowed_users.";
    }
  }

  /** What a command handler ends with: a reply, or an exception that
      propagates out of it. */
  datatype Outcome = Replied(text: string) | Raised

  /** `removeuser_command`: `int()` of a non-integer argument is not caught,
      so the handler raises and nothing is removed. */
  method RemoveUserCommand(sender: int, args: Option<string>, adminIds: seq<int>, store: JsonStore) returns (outcome: Outcome)
    modifies store
    ensures store.users == old(store.users)
    ensures sender !in adminIds ==> outcome == Replied("You are not authorized to remove users.") && store.allowed == old(store.allowed)
    ensures sender in adminIds && !HasArgs(args) ==> outcome == Replied("Usage: /removeuser <user_id>") && store.allowed == old(store.allowed)
    ensures sender in adminIds && HasArgs(args) && PyInt(args.value).None? ==> outcome == Raised && store.allowed == old(store.allowed)
    ensures sender in adminIds && HasArgs(args) && PyInt(args.value).Some? ==>
      var id := PyInt(args.value).value;
      && !store.IsUserAllowed(id)
      && (HasId(Load(old(store.allowed)), id) ==>
            outcome == Replied("User " + IntToString(id) + " removed.") && store.allowed == Records(WithoutId(Load(old(store.allowed)), id)))
      && (!HasId(Load(old(store.allowed)), id) ==>
            outcome == Replied("Failed to remove user.") && store.allowed == old(store.allowed))
  {
    if sender !in adminIds {
      return Replied("You are not authorized to remove users.");
    }
    if !HasArgs(args) {
      return Replied("Usage: /removeuser <user_id>");
    }
    var parsed := PyInt(args.value);
    if parsed.None? {
      return Raised;
    }
    var ok := store.RemoveAllowedUser(parsed.value);
    if ok {
      outcome := Replied("User " + IntToString(parsed.value) + " removed.");
    } else {
      outcome := Replied("Failed to remove user.");
    }
  }

  const NotAllowedReply := "❌ You are NOT allowed to use this bot."

  /** `myaccess_command`: admins are answered before the allow-list is read. */
  function MyAccess(sender: int, adminIds: seq<int>, allowed: JsonFile): (r: string)
    ensures sender in adminIds ==> r == "✅ You are the bot admin and have full access."
    ensures sender !in adminIds ==> (r == NotAllowedReply <==> !HasId(Load(allowed), sender))
  {
    if sender in adminIds then "✅ You are the bot admin and have full access."
    else if HasId(Load(allowed), sender) then "✅ You are allowed to use this bot."
    else NotAllowedReply
  }

  /** `u['username'] or 'N/A'` */
  function OrNA(s: string): (r: string)
    ensures r != ""
    ensures s != "" ==> r == s
  {
    if s == "" then "N/A" else s
  }

  function AllowedLine(u: UserRecord): string {
    "<b>User:</b> " + OrNA(u.username) + "\n<b>User ID:</b> <code>" + IntToString(u.id) + "</code>"
  }

  function UserLine(u: UserRecord): string {
    "<b>User:</b> " + OrNA(u.username) + "\n<b>User ID:</b> <code>" + IntToString(u.id) + "</code>\n<b>Name:</b> "
      + OrNA(u.firstName) + "\n<b>Date Joined:</b> " + u.dateJoined
  }

  function AllowedLines(rs: seq<UserRecord>): (r: seq<string>)
    ensures |r| == |rs| && forall k :: 0 <= k < |rs| ==> r[k] == AllowedLine(rs[k])
  {
    seq(|rs|, k requires 0 <= k < |rs| => AllowedLine(rs[k]))
  }

  function UserLines(rs: seq<UserRecord>): (r: seq<string>)
    ensures |r| == |rs| && forall k :: 0 <= k < |rs| ==> r[k] == UserLine(rs[k])
  {
    seq(|rs|, k requires 0 <= k < |rs| => UserLine(rs[k]))
  }

  /** A reply with its own first character is none of the fixed replies that
      start with another one. */
  lemma HeadedReply(head: string, body: string, other: string)
    requires |head| > 0 && |other| > 0 && head[0] != other[0]
    ensures head + body != other && StartsWith(head + body, head)
  {
    assert (head + body)[0] == head[0];
    assert (head + body)[..|head|] == head;
  }

  /** `listusers_command` */
  function ListUsers(sender: int, adminIds: seq<int>, allowed: JsonFile): (r: string)
    ensures r == "You are not authorized to list users." <==> sender !in adminIds
    ensures sender in adminIds ==> (r == "No allowed users found." <==> Load(allowed) == [])
    ensures sender in adminIds && Load(allowed) != [] ==> StartsWith(r, "Allowed users:\n")
  {
    if sender !in adminIds then "You are not authorized to list users."
    else if Load(allowed) == [] then "No allowed users found."
    else
      var body := Join("\n", AllowedLines(Load(allowed)));
      HeadedReply("Allowed users:\n", body, "You are not authorized to list users.");
      HeadedReply("Allowed users:\n", body, "No allowed users found.");
      "Allowed users:\n" + body
  }

  /** `userlist_command` */
  function UserList(sender: int, adminIds: seq<int>, users: JsonFile): (r: string)
    ensures r == "You are not authorized to list all users." <==> sender !in adminIds
    ensures sender in adminIds ==> (r == "No users found." <==> Load(users) == [])
    ensures sender in adminIds && Load(users) != [] ==> StartsWith(r, "All users in users.json:\n")
  {
    if sender !in adminIds then "You are not authorized to list all users."
    else if Load(users) == [] then "No users found."
    else
      var body := Join("\n", UserLines(Load(users)));
      HeadedReply("All users in users.json:\n", body, "You are not authorized to list all users.");
      HeadedReply("All users in users.json:\n", body, "No users found.");
      "All users in users.json:\n" + body
  }

  /** An admin's listing of the allow-list names every allowed user. */
  lemma ListUsersNamesEveryone(sender: int, adminIds: seq<int>, allowed: JsonFile, k: nat)
    requires sender in adminIds && k < |Load(allowed)|
    ensures Contains(ListUsers(sender, adminIds, allowed), AllowedLine(Load(allowed)[k]))
  {
    var lines := AllowedLines(Load(allowed));
    JoinContains("\n", lines, k);
    ContainsWithin("Allowed users:\n", Join("\n", lines), "", lines[k]);
    assert ListUsers(sender, adminIds, allowed) == "Allowed users:\n" + Join("\n", lines) + "";
  }

  /** An admin's listing of the user list names every known user. */
  lemma UserListNamesEveryone(sender: int, adminIds: seq<int>, users: JsonFile, k: nat)
    requires sender in adminIds && k < |Load(users)|
    ensures Contains(UserList(sender, adminIds, users), UserLine(Load(users)[k]))
  {
    var lines := UserLines(Load(users));
    JoinContains("\n", lines, k);
    ContainsWithin("All users in users.json:\n", Join("\n", lines), "", lines[k]);
    assert UserList(sender, adminIds, users) == "All users in users.json:\n" + Join("\n", lines) + "";
  }

  /** Listings only ever go to admins: a non-admin gets the refusal whatever
      the files hold. */
  lemma ListingsNeedAdmin(sender: int, adminIds: seq<int>, allowed: JsonFile, users: JsonFile)
    requires sender !in adminIds
    ensures ListUsers(sender, adminIds, allowed) == "You are not authorized to list users."
    ensures UserList(sender, adminIds, users) == "You are not authorized to list all users."
  {
  }

  const ListAllowedButton := "📋 List Allowed Users"
  const ListAllButton := "👥 List All Users"
  const AllowButton := "✅ Allow User"
  const RemoveButton := "❌ Remove User"
  const BackButton := "⬅️ Back to Main Menu"

  predicate IsAdminButton(t: string) {
    t == ListAllowedButton || t == ListAllButton || t == AllowButton || t == RemoveButton || t == BackButton
  }

  /** The five admin buttons are told apart by their first character. */
  lemma ButtonsDistinct()
    ensures ListAllowedButton != ListAllButton && ListAllowedButton != AllowButton
    ensures ListAllowedButton != RemoveButton && ListAllowedButton != BackButton
    ensures ListAllButton != AllowButton && ListAllButton != RemoveButton && ListAllButton != BackButton
    ensures AllowButton != RemoveButton && AllowButton != BackButton && RemoveButton != BackButton
  {
    assert ListAllowedButton[0] == '📋' && ListAllButton[0] == '👥' && AllowButton[0] == '✅';
    assert RemoveButton[0] == '❌' && BackButton[0] == '⬅';
  }

  /** The reply `handle_admin_text_message` gives to a button text. */
  function AdminButtonReply(userId: int, text: Option<string>, adminIds: seq<int>, store: JsonStore): (r: Option<string>)
    reads store
    ensures userId !in adminIds ==> r.None?
    ensures userId in adminIds && text == Some(ListAllowedButton) ==> r == Some(ListUsers(userId, adminIds, store.allowed))
    ensures userId in adminIds && text == Some(ListAllButton) ==> r == Some(UserList(userId, adminIds, store.users))
    ensures userId in adminIds && text == Some(AllowButton) ==> r == Some("Please use the command: /allow_user <user_id>")
    ensures userId in adminIds && text == Some(RemoveButton) ==> r == Some("Please use the command: /removeuser <user_id>")
    ensures userId in adminIds && text == Some(BackButton) ==> r == Some("Returning to the main menu.")
    ensures r.Some? <==> userId in adminIds && text.Some? && IsAdminButton(text.value)
  {
    ButtonsDistinct();
    if userId !in adminIds || text.None? then None
    else if text.value == ListAllowedButton then Some(ListUsers(userId, adminIds, store.allowed))
    else if text.value == ListAllButton then Some(UserList(userId, adminIds, store.users))
    else if text.value == AllowButton then Some("Please use the command: /allow_user <user_id>")
    else if text.value == RemoveButton then Some("Please use the command: /removeuser <user_id>")
    else if text.value == BackButton then Some("Returning to the main menu.")
    else None
  }

  /** `states.user_states`, the state table handlers_admin.py writes. */
  class StateTable {
    var states: map<int, UserState>

    constructor(initial: map<int, UserState>)
      ensures states == initial
    {
      states := initial;
    }
  }

  /** `handle_admin_text_message`: only the Back button of an admin changes
      state, setting that admin's state to IDLE. */
  method HandleAdminTextMessage(userId: int, text: Option<string>, adminIds: seq<int>, store: JsonStore, table: StateTable)
    returns (reply: Option<string>)
    modifies table
    ensures reply == AdminButtonReply(userId, text, adminIds, store)
    ensures table.states == if userId in adminIds && text == Some(BackButton) then old(table.states)[userId := Idle]
                            else old(table.states)
  {
    if userId !in adminIds {
      return None;
    }
    reply := AdminButtonReply(userId, text, adminIds, store);
    if text == Some(BackButton) {
      table.states := table.states[userId := Idle];
    }
  }
}
