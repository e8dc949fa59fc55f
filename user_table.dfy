/** The User Management screen (src/components/UserTable.jsx): the user list,
    the create/update modal and its form, and the handlers that call the
    `/users` endpoints and mirror the server's answer into the list.
 */
module UserTable {
  import opened Api
  import Js
  import Lists

  /** The modal's form record. */
  datatype Form = Form(name: string, email: string, phone: string, role: string, password: string)

  const EmptyForm := Form("", "", "", "", "")

  /** The `name` attribute of the input that fired a change event. */
  datatype Field = Name | Email | Phone | Role | Password

  function Get(f: Form, field: Field): string {
    match field
    case Name => f.name
    case Email => f.email
    case Phone => f.phone
    case Role => f.role
    case Password => f.password
  }

  /** `{ ...formData, [field]: value }`: the named field takes the new value
      and every other field keeps its old one. */
  function WithField(f: Form, field: Field, value: string): (r: Form)
    ensures Get(r, field) == value
    ensures forall g: Field :: g != field ==> Get(r, g) == Get(f, g)
  {
    match field
    case Name => f.(name := value)
    case Email => f.(email := value)
    case Phone => f.(phone := value)
    case Role => f.(role := value)
    case Password => f.(password := value)
  }

  /** The body of an update request: the profile fields, with no password. */
  datatype Updates = Updates(name: string, email: string, phone: string, role: string)

  /** The calls this screen makes. `UpdateUser` targets `editingUserId`,
      which a template literal renders as "null" when it is null. */
  datatype Request =
    | ListUsers
    | CreateUser(body: Form)
    | UpdateUser(target: Option<string>, updates: Updates)
    | DeleteUser(id: string)
  {
    function Path(): string {
      match this
      case ListUsers => "/users"
      case CreateUser(_) => "/users"
      case UpdateUser(target, _) => "/users/" + (match target case Some(id) => id case None => "null")
      case DeleteUser(id) => "/users/" + id
    }
  }

  const LoadFailed := "Failed to load users"
  const CreateIncomplete := "All fields are required"
  const Created := "User created successfully!"
  const CreateFailed := "Failed to create user"
  const UpdateIncomplete := "All fields except password are required"
  const Updated := "User updated successfully!"
  const UpdateFailed := "Failed to update user"
  const Removed := "User removed"
  const RemoveFailed := "Failed to remove user"

  /** `!name || !email || !phone || !role || !password`: a required field is
      the empty string. Nothing is trimmed. */
  predicate MissingForCreate(f: Form) {
    Js.IsFalsy(f.name) || Js.IsFalsy(f.email) || Js.IsFalsy(f.phone)
    || Js.IsFalsy(f.role) || Js.IsFalsy(f.password)
  }

  /** The same check without the password. */
  predicate MissingForUpdate(f: Form) {
    Js.IsFalsy(f.name) || Js.IsFalsy(f.email) || Js.IsFalsy(f.phone) || Js.IsFalsy(f.role)
  }

  /** The update guard is the create guard minus the password: a form the
      create guard refuses is refused by the update guard too, unless the
      password is the only empty field. */
  lemma UpdateGuardDropsPassword(f: Form)
    ensures MissingForCreate(f) <==> MissingForUpdate(f) || f.password == ""
    ensures MissingForUpdate(f) ==> MissingForCreate(f)
  {
  }

  /** The key `_id` by which the list is rewritten. */
  function UserKey(u: User): string {
    u.id
  }

  /** `users.map(u => u._id === target ? updated : u)`. A null target equals
      no string id, so then nothing is replaced. */
  function ReplaceEditing(users: seq<User>, target: Option<string>, updated: User): (r: seq<User>)
    ensures |r| == |users|
    ensures forall i :: 0 <= i < |users| ==>
      r[i] == if target == Some(users[i].id) then updated else users[i]
  {
    match target
    case Some(id) => Lists.ReplaceWhere(users, UserKey, id, updated)
    case None => users
  }

  /** After a successful update the server's answer stands in the list when
      some entry had the edited id; every entry with another id is still
      there; and nothing else appears. */
  lemma ReplaceEditingSpec(users: seq<User>, id: string, updated: User)
    ensures (exists u :: u in users && u.id == id) ==> updated in ReplaceEditing(users, Some(id), updated)
    ensures forall u :: u in users && u.id != id ==> u in ReplaceEditing(users, Some(id), updated)
    ensures forall u :: u in ReplaceEditing(users, Some(id), updated) ==>
      u == updated || (u in users && u.id != id)
  {
  }

  /** A successful remove leaves no entry with the removed id, keeps every
      other entry, and is shorter by exactly the number of entries removed. */
  lemma RemoveByIdSpec(users: seq<User>, id: string)
    ensures forall u :: u in Lists.FilterOut(users, UserKey, id) ==> u.id != id
    ensures forall u :: u in users && u.id != id ==> u in Lists.FilterOut(users, UserKey, id)
    ensures |Lists.FilterOut(users, UserKey, id)| == |users| - Lists.Matches(users, UserKey, id)
  {
  }

  class UsersTable {
    var users: seq<User>
    var form: Form
    var editingUserId: Option<string>
    var isEditing: bool
    var showModal: bool

    /** The modal is in update mode exactly when a user is being edited,
        and update mode is only ever entered with the modal open. */
    ghost predicate Valid()
      reads this
    {
      (isEditing <==> editingUserId.Some?) && (isEditing ==> showModal)
    }

    /** The state right after mount, before the initial fetch resolves. */
    constructor ()
      ensures Valid()
      ensures users == [] && form == EmptyForm && editingUserId == None
      ensures !isEditing && !showModal
    {
      users := [];
      form := EmptyForm;
      editingUserId := None;
      isEditing := false;
      showModal := false;
    }

    /** `fetchUsers`, run on mount: GET /users replaces the list wholesale. */
    method FetchUsers(outcome: Outcome<seq<User>>) returns (req: Request, toast: Option<Toast>)
      requires Valid()
      modifies this
      ensures Valid()
      ensures req == ListUsers
      ensures users == (if outcome.Ok? then outcome.data else old(users))
      ensures toast == (if outcome.Ok? then None else Some(Error(LoadFailed)))
      ensures form == old(form) && editingUserId == old(editingUserId)
      ensures isEditing == old(isEditing) && showModal == old(showModal)
    {
      req := ListUsers;
      match outcome
      case Ok(data) =>
        users := data;
        toast := None;
      case Err(_) =>
        toast := Some(Error(LoadFailed));
    }

    /** `handleInputChange`: one form field takes the typed value. */
    method HandleInputChange(field: Field, value: string)
      requires Valid()
      modifies this
      ensures Valid()
      ensures form == WithField(old(form), field, value)
      ensures users == old(users) && editingUserId == old(editingUserId)
      ensures isEditing == old(isEditing) && showModal == old(showModal)
    {
      form := WithField(form, field, value);
    }

    /** `resetForm`, also bound to Cancel and to a click on the backdrop:
        empty form, nobody being edited, modal closed. */
    method ResetForm()
      requires Valid()
      modifies this
      ensures Valid()
      ensures form == EmptyForm && editingUserId == None && !isEditing && !showModal
      ensures users == old(users)
    {
      form := EmptyForm;
      editingUserId := None;
      isEditing := false;
      showModal := false;
    }

    /** The "+ Add User" button: reset, then open the modal in create mode. */
    method OpenCreateModal()
      requires Valid()
      modifies this
      ensures Valid()
      ensures form == EmptyForm && editingUserId == None && !isEditing && showModal
      ensures users == old(users)
    {
      ResetForm();
      showModal := true;
    }

    /** `handleAddUser`: blocked unless all five fields are non-empty; POST
        /users with the whole form; on success append the created user. */
    method HandleAddUser(outcome: Outcome<User>) returns (req: Option<Request>, toast: Toast)
      requires Valid()
      modifies this
      ensures Valid()
      ensures req == (if MissingForCreate(old(form)) then None else Some(CreateUser(old(form))))
      ensures req.None? ==> toast == Error(CreateIncomplete) && unchanged(this)
      ensures req.Some? && outcome.Ok? ==>
        && users == old(users) + [outcome.data]
        && form == EmptyForm && editingUserId == None && !isEditing && !showModal
        && toast == Success(Created)
      ensures req.Some? && outcome.Err? ==>
        unchanged(this) && toast == Error(ErrorText(outcome.message, CreateFailed))
    {
      if MissingForCreate(form) {
        req := None;
        toast := Error(CreateIncomplete);
        return;
      }
      req := Some(CreateUser(form));
      match outcome
      case Ok(created) =>
        users := users + [created];
        ResetForm();
        toast := Success(Created);
      case Err(message) =>
        toast := Error(ErrorText(message, CreateFailed));
    }

    /** `handleUpdateUser`: blocked unless the four profile fields are
        non-empty (the password is not checked); PUT /users/{editingUserId}
        with those four fields only; on success replace the edited entry. */
    method HandleUpdateUser(outcome: Outcome<User>) returns (req: Option<Request>, toast: Toast)
      requires Valid()
      modifies this
      ensures Valid()
      ensures req == if MissingForUpdate(old(form)) then None
                     else Some(UpdateUser(old(editingUserId),
                                          Updates(old(form.name), old(form.email), old(form.phone), old(form.role))))
      ensures req.None? ==> toast == Error(UpdateIncomplete) && unchanged(this)
      ensures req.Some? && outcome.Ok? ==>
        && users == ReplaceEditing(old(users), old(editingUserId), outcome.data)
        && form == EmptyForm && editingUserId == None && !isEditing && !showModal
        && toast == Success(Updated)
      ensures req.Some? && outcome.Err? ==>
        unchanged(this) && toast == Error(ErrorText(outcome.message, UpdateFailed))
    {
      if MissingForUpdate(form) {
        req := None;
        toast := Error(UpdateIncomplete);
        return;
      }
      req := Some(UpdateUser(editingUserId, Updates(form.name, form.email, form.phone, form.role)));
      match outcome
      case Ok(updated) =>
        users := ReplaceEditing(users, editingUserId, updated);
        ResetForm();
        toast := Success(Updated);
      case Err(message) =>
        toast := Error(ErrorText(message, UpdateFailed));
    }

    /** The modal's submit button: update in update mode, create otherwise.
        In update mode the request always names the edited user and carries
        no password. */
    method Submit(outcome: Outcome<User>) returns (req: Option<Request>, toast: Toast)
      requires Valid()
      modifies this
      ensures Valid()
      ensures old(isEditing) ==> (req.None? <==> MissingForUpdate(old(form)))
      ensures old(isEditing) && req.Some? ==>
        && req.value.UpdateUser? && req.value.target.Some?
        && req.value.target == old(editingUserId)
        && req.value.updates == Updates(old(form.name), old(form.email), old(form.phone), old(form.role))
      ensures !old(isEditing) ==>
        req == (if MissingForCreate(old(form)) then None else Some(CreateUser(old(form))))
      ensures req.Some? && outcome.Ok? ==>
        && users == (if old(isEditing) then ReplaceEditing(old(users), old(editingUserId), outcome.data)
                     else old(users) + [outcome.data])
        && form == EmptyForm && editingUserId == None && !isEditing && !showModal
      ensures (req.None? || outcome.Err?) ==> unchanged(this)
      ensures old(isEditing) && req.Some? ==> req.value.Path() == "/users/" + old(editingUserId).value
      ensures !old(isEditing) && req.Some? ==> req.value.Path() == "/users"
      ensures req.None? ==> toast == Error(if old(isEditing) then UpdateIncomplete else CreateIncomplete)
      ensures req.Some? && outcome.Ok? ==> toast == Success(if old(isEditing) then Updated else Created)
      ensures req.Some? && outcome.Err? ==>
        toast == Error(ErrorText(outcome.message, if old(isEditing) then UpdateFailed else CreateFailed))
    {
      if isEditing {
        req, toast := HandleUpdateUser(outcome);
      } else {
        req, toast := HandleAddUser(outcome);
      }
    }

    /** `handleRemove`: DELETE /users/{id}; on success drop every entry with
        that id. */
    method HandleRemove(id: string, outcome: Outcome<()>) returns (req: Request, toast: Toast)
      requires Valid()
      modifies this
      ensures Valid()
      ensures req == DeleteUser(id)
      ensures users == (if outcome.Ok? then Lists.FilterOut(old(users), UserKey, id) else old(users))
      ensures toast == (if outcome.Ok? then Success(Removed) else Error(RemoveFailed))
      ensures form == old(form) && editingUserId == old(editingUserId)
      ensures isEditing == old(isEditing) && showModal == old(showModal)
    {
      req := DeleteUser(id);
      if outcome.Ok? {
        users := Lists.FilterOut(users, UserKey, id);
        toast := Success(Removed);
      } else {
        toast := Error(RemoveFailed);
      }
    }

    /** `handleEditClick`: load the row into the form with a blank password
        and open the modal in update mode for that user. */
    method HandleEditClick(user: User)
      requires Valid()
      modifies this
      ensures Valid()
      ensures form == Form(user.name, user.email, user.phone, user.role, "")
      ensures editingUserId == Some(user.id) && isEditing && showModal
      ensures users == old(users)
    {
      form := Form(user.name, user.email, user.phone, user.role, "");
      editingUserId := Some(user.id);
      isEditing := true;
      showModal := true;
    }
  }

  /** Editing a row and submitting it unchanged sends exactly that row's
      profile fields to that row's id, and never a password. */
  method EditThenSubmit(t: UsersTable, user: User, outcome: Outcome<User>) returns (req: Option<Request>)
    requires t.Valid()
    modifies t
    ensures t.Valid()
    ensures user.name != "" && user.email != "" && user.phone != "" && user.role != "" ==>
      req == Some(UpdateUser(Some(user.id), Updates(user.name, user.email, user.phone, user.role)))
    ensures user.name == "" || user.email == "" || user.phone == "" || user.role == "" ==> req.None?
  {
    t.HandleEditClick(user);
    var toast;
    req, toast := t.Submit(outcome);
  }
}
