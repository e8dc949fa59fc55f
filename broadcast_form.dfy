/** The Send Broadcast screen (src/components/BroadcastForm.jsx): pick roles,
    which refetches the candidate users; pick users among them; type a
    message; send it to the picked users' phone numbers.
 */
module BroadcastForm {
  import opened Api
  import Js
  import Lists

  /** An option of either selector, react-select's `{ label, value }`
      (`caption` stands for `label`). A user option's value is the phone. */
  datatype SelectOption = SelectOption(caption: string, value: string)

  /** The fixed roles offered, in the order "Select All" picks them. */
  const Roles: seq<SelectOption> := [SelectOption("Admin", "admin"), SelectOption("HR", "hr"), SelectOption("Employee", "employee")]

  const FetchFailed := "Failed to fetch users"
  const EmptyMessage := "Message cannot be empty"
  const NoRecipients := "Select at least one user"
  const Sent := "Broadcast sent successfully!"
  const SendFailed := "Failed to send broadcast"

  /** The calls this screen makes. */
  datatype Request =
    | FetchUsers(rolesQuery: string)
    | SendBroadcast(message: string, recipients: string)
  {
    function Path(): string {
      match this
      case FetchUsers(query) => "/users?roles=" + query
      case SendBroadcast(_, _) => "/broadcast"
    }
  }

  function OptionValue(o: SelectOption): string {
    o.value
  }

  function UserPhone(u: User): string {
    u.phone
  }

  function ToUserOption(u: User): SelectOption {
    SelectOption(u.name + " (" + u.phone + ")", u.phone)
  }

  /** `selectedRoles.map(r => r.value).join(",")`. */
  function RolesQuery(roles: seq<SelectOption>): string {
    Js.Join(Lists.Map(roles, OptionValue), ',')
  }

  /** `users.map(u => ({ label: `${u.name} (${u.phone})`, value: u.phone }))`:
      one option per candidate, in order, keyed by phone. */
  function UserOptions(users: seq<User>): (r: seq<SelectOption>)
    ensures |r| == |users|
    ensures forall i :: 0 <= i < |users| ==>
      r[i].value == users[i].phone && r[i].caption == users[i].name + " (" + users[i].phone + ")"
  {
    Lists.Map(users, ToUserOption)
  }

  /** `selectedUsers.map(u => u.value).join(",")`. */
  function Recipients(selected: seq<SelectOption>): string {
    Js.Join(Lists.Map(selected, OptionValue), ',')
  }

  /** The server can read the selected roles back from the query: splitting
      it at commas gives their values in selection order. */
  lemma RolesQueryRoundTrip(roles: seq<SelectOption>)
    requires roles != []
    requires forall i :: 0 <= i < |roles| ==> ',' !in roles[i].value
    ensures Js.Split(RolesQuery(roles), ',') == Lists.Map(roles, OptionValue)
  {
    Js.SplitJoin(Lists.Map(roles, OptionValue), ',');
  }

  /** Selecting every role queries all three. */
  lemma AllRolesQuery()
    ensures RolesQuery(Roles) == "admin,hr,employee"
  {
    var values := Lists.Map(Roles, OptionValue);
    assert values == ["admin", "hr", "employee"];
    assert values[1..][1..] == ["employee"];
    assert Js.Join(values[1..], ',') == "hr" + [','] + "employee";
  }

  /** The recipients string names exactly the selected phones, in order:
      splitting it at commas gives them back, as long as something is
      selected and no phone contains a comma. */
  lemma RecipientsRoundTrip(selected: seq<SelectOption>)
    requires selected != []
    requires forall i :: 0 <= i < |selected| ==> ',' !in selected[i].value
    ensures Js.Split(Recipients(selected), ',') == Lists.Map(selected, OptionValue)
  {
    Js.SplitJoin(Lists.Map(selected, OptionValue), ',');
  }

  /** After "Select All" on users the recipients are every candidate's
      phone, in the candidates' order. */
  lemma SelectAllRecipients(users: seq<User>)
    ensures Recipients(UserOptions(users)) == Js.Join(Lists.Map(users, UserPhone), ',')
  {
  }

  /** The recipients string is empty only for an empty selection or a single
      selected user whose phone is empty. */
  lemma RecipientsEmptyIff(selected: seq<SelectOption>)
    ensures Recipients(selected) == "" <==> (selected == [] || (|selected| == 1 && selected[0].value == ""))
  {
  }

  class Broadcast {
    var selectedRoles: seq<SelectOption>
    var users: seq<User>
    var selectedUsers: seq<SelectOption>
    var message: string
    var allRolesSelected: bool
    var allUsersSelected: bool

    /** With no role selected there are neither candidates nor selected
        users: the role-change effect clears both. */
    ghost predicate Valid()
      reads this
    {
      selectedRoles == [] ==> users == [] && selectedUsers == []
    }

    /** The user selector is rendered only when a role is selected and
        there is at least one candidate to offer. */
    predicate UserSelectorVisible()
      reads this
    {
      |selectedRoles| > 0 && |users| > 0
    }

    /** The state after mount; the effect's first run sees no roles. */
    constructor ()
      ensures Valid()
      ensures selectedRoles == [] && users == [] && selectedUsers == [] && message == ""
      ensures !allRolesSelected && !allUsersSelected
    {
      selectedRoles := [];
      users := [];
      selectedUsers := [];
      message := "";
      allRolesSelected := false;
      allUsersSelected := false;
    }

    /** The effect that runs whenever `selectedRoles` changes. With no role
        it clears candidates and selection and calls nothing; otherwise it
        fetches the users of the selected roles and, on success, replaces
        the candidates wholesale, leaving the selection alone. */
    method RolesChanged(outcome: Outcome<seq<User>>) returns (req: Option<Request>, toast: Option<Toast>)
      modifies this
      ensures Valid()
      ensures selectedRoles == old(selectedRoles) && message == old(message)
      ensures allRolesSelected == old(allRolesSelected) && allUsersSelected == old(allUsersSelected)
      ensures old(selectedRoles) == [] ==>
        req == None && toast == None && users == [] && selectedUsers == []
      ensures old(selectedRoles) != [] ==>
        && req == Some(FetchUsers(RolesQuery(old(selectedRoles))))
        && req.value.Path() == "/users?roles=" + RolesQuery(old(selectedRoles))
        && selectedUsers == old(selectedUsers)
        && users == (if outcome.Ok? then outcome.data else old(users))
        && toast == (if outcome.Ok? then None else Some(Error(ErrorText(outcome.message, FetchFailed))))
    {
      if selectedRoles == [] {
        users := [];
        selectedUsers := [];
        req := None;
        toast := None;
        return;
      }
      req := Some(FetchUsers(RolesQuery(selectedRoles)));
      match outcome
      case Ok(data) =>
        users := data;
        toast := None;
      case Err(message) =>
        toast := Some(Error(ErrorText(message, FetchFailed)));
    }

    /** The role selector's change handler, `setSelectedRoles(opts || [])`,
        followed by the effect it triggers. */
    method HandleRolesChange(opts: Option<seq<SelectOption>>, outcome: Outcome<seq<User>>)
      returns (req: Option<Request>, toast: Option<Toast>)
      modifies this
      ensures Valid()
      ensures selectedRoles == (if opts.Some? then opts.value else [])
      ensures selectedRoles == [] ==> req == None && users == [] && selectedUsers == []
      ensures selectedRoles != [] ==>
        && req == Some(FetchUsers(RolesQuery(selectedRoles)))
        && req.value.Path() == "/users?roles=" + RolesQuery(selectedRoles)
        && selectedUsers == old(selectedUsers)
        && users == (if outcome.Ok? then outcome.data else old(users))
      ensures toast == (if selectedRoles == [] || outcome.Ok? then None
                        else Some(Error(ErrorText(outcome.message, FetchFailed))))
      ensures message == old(message)
      ensures allRolesSelected == old(allRolesSelected) && allUsersSelected == old(allUsersSelected)
    {
      selectedRoles := if opts.Some? then opts.value else [];
      req, toast := RolesChanged(outcome);
    }

    /** `handleSelectAllRoles`: select the three fixed roles or none, flip
        the flag, and let the effect refetch or clear the candidates. */
    method HandleSelectAllRoles(outcome: Outcome<seq<User>>) returns (req: Option<Request>, toast: Option<Toast>)
      modifies this
      ensures Valid()
      ensures allRolesSelected == !old(allRolesSelected)
      ensures selectedRoles == (if old(allRolesSelected) then [] else Roles)
      ensures old(allRolesSelected) ==> req == None && users == [] && selectedUsers == []
      ensures !old(allRolesSelected) ==>
        && req == Some(FetchUsers("admin,hr,employee"))
        && selectedUsers == old(selectedUsers)
        && users == (if outcome.Ok? then outcome.data else old(users))
      ensures toast == (if selectedRoles == [] || outcome.Ok? then None
                        else Some(Error(ErrorText(outcome.message, FetchFailed))))
      ensures message == old(message) && allUsersSelected == old(allUsersSelected)
    {
      if allRolesSelected {
        selectedRoles := [];
      } else {
        selectedRoles := Roles;
      }
      allRolesSelected := !allRolesSelected;
      AllRolesQuery();
      req, toast := RolesChanged(outcome);
    }

    /** `handleSelectAllUsers`, a button inside the user selector: select
        one option per candidate, or none, and flip the flag. */
    method HandleSelectAllUsers()
      requires Valid() && UserSelectorVisible()
      modifies this
      ensures Valid()
      ensures allUsersSelected == !old(allUsersSelected)
      ensures selectedUsers == (if old(allUsersSelected) then [] else UserOptions(users))
      ensures !old(allUsersSelected) ==> selectedUsers != []
      ensures selectedRoles == old(selectedRoles) && users == old(users)
      ensures message == old(message) && allRolesSelected == old(allRolesSelected)
    {
      if allUsersSelected {
        selectedUsers := [];
      } else {
        selectedUsers := UserOptions(users);
      }
      allUsersSelected := !allUsersSelected;
    }

    /** The user selector's change handler, `setSelectedUsers(opts || [])`. */
    method HandleUsersChange(opts: Option<seq<SelectOption>>)
      requires Valid() && UserSelectorVisible()
      modifies this
      ensures Valid()
      ensures selectedUsers == (if opts.Some? then opts.value else [])
      ensures selectedRoles == old(selectedRoles) && users == old(users) && message == old(message)
      ensures allRolesSelected == old(allRolesSelected) && allUsersSelected == old(allUsersSelected)
    {
      selectedUsers := if opts.Some? then opts.value else [];
    }

    /** The message box's change handler. */
    method HandleMessageChange(text: string)
      requires Valid()
      modifies this
      ensures Valid()
      ensures message == text
      ensures selectedRoles == old(selectedRoles) && users == old(users) && selectedUsers == old(selectedUsers)
      ensures allRolesSelected == old(allRolesSelected) && allUsersSelected == old(allUsersSelected)
    {
      message := text;
    }

    /** `handleSend`: a blank message is refused first, then an empty
        selection; otherwise POST /broadcast with the untrimmed message and
        the comma-joined phones. Success resets every field (the effect that
        the reset roles trigger finds nothing left to clear); failure
        changes nothing. */
    method HandleSend(outcome: Outcome<()>) returns (req: Option<Request>, toast: Toast)
      requires Valid()
      modifies this
      ensures Valid()
      ensures Js.IsBlank(old(message)) ==>
        req == None && toast == Error(EmptyMessage) && unchanged(this)
      ensures !Js.IsBlank(old(message)) && old(selectedUsers) == [] ==>
        req == None && toast == Error(NoRecipients) && unchanged(this)
      ensures !Js.IsBlank(old(message)) && old(selectedUsers) != [] ==>
        req == Some(SendBroadcast(old(message), Recipients(old(selectedUsers))))
      ensures req.Some? ==> req.value.Path() == "/broadcast"
      ensures req.Some? && outcome.Ok? ==>
        && message == "" && selectedUsers == [] && selectedRoles == [] && users == []
        && !allRolesSelected && !allUsersSelected
        && toast == Success(Sent)
      ensures req.Some? && outcome.Err? ==>
        unchanged(this) && toast == Error(ErrorText(outcome.message, SendFailed))
    {
      if Js.IsBlank(message) {
        req := None;
        toast := Error(EmptyMessage);
        return;
      }
      if selectedUsers == [] {
        req := None;
        toast := Error(NoRecipients);
        return;
      }
      req, toast := Post(outcome);
    }

    /** The send itself, once both guards have passed: POST /broadcast, then
        on success reset every field and both flags. */
    method Post(outcome: Outcome<()>) returns (req: Option<Request>, toast: Toast)
      requires Valid()
      modifies this
      ensures Valid()
      ensures req == Some(SendBroadcast(old(message), Recipients(old(selectedUsers))))
      ensures outcome.Ok? ==>
        && message == "" && selectedUsers == [] && selectedRoles == [] && users == []
        && !allRolesSelected && !allUsersSelected
        && toast == Success(Sent)
      ensures outcome.Err? ==>
        unchanged(this) && toast == Error(ErrorText(outcome.message, SendFailed))
    {
      req := Some(SendBroadcast(message, Recipients(selectedUsers)));
      match outcome
      case Ok(_) =>
        message := "";
        selectedUsers := [];
        selectedRoles := [];
        users := [];
        allRolesSelected := false;
        allUsersSelected := false;
        toast := Success(Sent);
      case Err(m) =>
        toast := Error(ErrorText(m, SendFailed));
    }
  }

  /** Under the invariant the selector is shown exactly when there are
      candidates: a candidate list is only ever loaded for a non-empty role
      selection. */
  lemma VisibleIffCandidates(f: Broadcast)
    requires f.Valid()
    ensures f.UserSelectorVisible() <==> f.users != []
  {
  }

  /** Pressing "Select All" on a visible user selector and then sending a
      non-blank message always posts: the "Select at least one user" guard
      cannot fire after it. */
  method SelectAllUsersThenSend(f: Broadcast, outcome: Outcome<()>) returns (req: Option<Request>)
    requires f.Valid() && f.UserSelectorVisible()
    requires !f.allUsersSelected && !Js.IsBlank(f.message)
    modifies f
    ensures req == Some(SendBroadcast(old(f.message), Recipients(UserOptions(old(f.users)))))
  {
    f.HandleSelectAllUsers();
    var toast;
    req, toast := f.HandleSend(outcome);
  }

  /** Two presses of "Select All" on roles, starting with the flag off,
      first fetch the users of all three roles and then return the form to
      no roles, no candidates, no selection and the flag off. */
  method SelectAllRolesTwice(f: Broadcast, first: Outcome<seq<User>>, second: Outcome<seq<User>>)
    returns (req1: Option<Request>, req2: Option<Request>)
    requires !f.allRolesSelected
    modifies f
    ensures req1 == Some(FetchUsers("admin,hr,employee")) && req2 == None
    ensures f.selectedRoles == [] && !f.allRolesSelected
    ensures f.users == [] && f.selectedUsers == []
  {
    var t1, t2;
    req1, t1 := f.HandleSelectAllRoles(first);
    req2, t2 := f.HandleSelectAllRoles(second);
  }
}
