/**
 * The Settings page: the admin profile form, loaded for the admin stored in
 * the session; the password checks run before an update; and the stored
 * session copy is refreshed once the update succeeds.
 */
module Settings {
  import opened Wrappers
  import opened Records

  /** The five inputs of the profile form. */
  datatype AdminForm = AdminForm(name: string, email: string, mobile: string, password: string, confirmPassword: string)

  const BlankForm: AdminForm := AdminForm("", "", "", "", "")

  /** The inputs by their `name` attribute, as `handleChange` receives them. */
  datatype FormField = Name | Email | Mobile | Password | ConfirmPassword

  /** `{ ...adminData, [e.target.name]: e.target.value }`: one input rewritten. */
  function SetField(form: AdminForm, field: FormField, value: string): (r: AdminForm)
    ensures field == Name ==> r == form.(name := value)
    ensures field == Email ==> r == form.(email := value)
    ensures field == Mobile ==> r == form.(mobile := value)
    ensures field == Password ==> r == form.(password := value)
    ensures field == ConfirmPassword ==> r == form.(confirmPassword := value)
  {
    match field
    case Name => form.(name := value)
    case Email => form.(email := value)
    case Mobile => form.(mobile := value)
    case Password => form.(password := value)
    case ConfirmPassword => form.(confirmPassword := value)
  }

  /** Why `handleUpdate` stops before sending anything. */
  datatype PasswordError = Mismatch | TooShort

  const MinPasswordLength: nat := 6

  /**
   * The two checks in order: a mismatch when either field is filled and they
   * differ, then a password that is filled but shorter than six characters.
   */
  function Validate(form: AdminForm): (err: Option<PasswordError>)
    ensures err == Some(Mismatch) ==> form.password != form.confirmPassword
    ensures err == Some(TooShort) ==> form.password != "" && |form.password| < MinPasswordLength
  {
    if (form.password != "" || form.confirmPassword != "") && form.password != form.confirmPassword then
      Some(Mismatch)
    else if form.password != "" && |form.password| < MinPasswordLength then
      Some(TooShort)
    else
      None
  }

  /**
   * The checks in closed form: any difference is a mismatch (the "either
   * is filled" test adds nothing, since two empty fields are equal); the
   * length check only sees equal fields; an update goes ahead exactly when
   * the fields agree and are empty or at least six characters long.
   */
  lemma ValidateMeaning(form: AdminForm)
    ensures Validate(form) == Some(Mismatch) <==> form.password != form.confirmPassword
    ensures Validate(form) == Some(TooShort) <==>
      form.password == form.confirmPassword && 0 < |form.password| < MinPasswordLength
    ensures Validate(form) == None <==>
      form.password == form.confirmPassword && (form.password == "" || |form.password| >= MinPasswordLength)
  {
  }

  /**
   * The request body: name, email and mobile, and both password fields as
   * typed. The later `if (password) payload.password = password` rewrites the
   * value already there.
   */
  function Payload(form: AdminForm): (payload: Record)
    ensures payload.Keys == {"name", "email", "mobile", "password", "confirmPassword"}
    ensures payload["name"] == form.name && payload["email"] == form.email && payload["mobile"] == form.mobile
    ensures payload["password"] == form.password && payload["confirmPassword"] == form.confirmPassword
  {
    var payload := map["name" := form.name, "email" := form.email, "mobile" := form.mobile,
                       "password" := form.password, "confirmPassword" := form.confirmPassword];
    if form.password != "" then payload["password" := form.password] else payload
  }

  /**
   * `{ ...sessionUser, name, email, mobile }`: the stored admin with the
   * three profile fields replaced and everything else, id and token among
   * them, kept; a missing session spreads as nothing.
   */
  function SessionAfterUpdate(session: Option<Record>, form: AdminForm): (updated: Record)
    ensures updated.Keys == session.GetOr(map[]).Keys + {"name", "email", "mobile"}
    ensures updated["name"] == form.name && updated["email"] == form.email && updated["mobile"] == form.mobile
    ensures forall k :: k in session.GetOr(map[]) && k !in {"name", "email", "mobile"} ==>
      updated[k] == session.GetOr(map[])[k]
  {
    Merge(session.GetOr(map[]), map["name" := form.name, "email" := form.email, "mobile" := form.mobile])
  }

  /** Refreshing the session twice with the same form is the same as once. */
  lemma SessionUpdateIdempotent(session: Option<Record>, form: AdminForm)
    ensures SessionAfterUpdate(Some(SessionAfterUpdate(session, form)), form) == SessionAfterUpdate(session, form)
  {
    var once := SessionAfterUpdate(session, form);
    assert SessionAfterUpdate(Some(once), form) == once + map["name" := form.name, "email" := form.email, "mobile" := form.mobile];
  }

  /**
   * `fetchAdminProfile`'s form: the admin's name, email and mobile, "" where
   * missing or empty, and both password fields blank.
   */
  function ProfileForm(admin: Record): (form: AdminForm)
    ensures form.name == FieldOr(admin, "name", "")
    ensures form.email == FieldOr(admin, "email", "")
    ensures form.mobile == FieldOr(admin, "mobile", "")
    ensures form.password == "" && form.confirmPassword == ""
    ensures Validate(form) == None
  {
    AdminForm(FieldOr(admin, "name", ""), FieldOr(admin, "email", ""), FieldOr(admin, "mobile", ""), "", "")
  }

  /** `sessionUser?.id`, taken as present when it is a non-empty string. */
  function SessionUserId(session: Option<Record>): (id: Option<string>)
    ensures id.Some? <==> session.Some? && "id" in session.value && session.value["id"] != ""
    ensures id.Some? ==> id.value == session.value["id"]
  {
    if session.Some? && "id" in session.value && session.value["id"] != "" then Some(session.value["id"]) else None
  }

  /** The state the Settings component keeps, with the stored session copy. */
  class SettingsPage {
    var session: Option<Record>
    var adminData: AdminForm
    var loading: bool
    var updating: bool

    constructor (stored: Option<Record>)
      ensures session == stored && adminData == BlankForm && loading && !updating
    {
      session := stored;
      adminData := BlankForm;
      loading := true;
      updating := false;
    }

    /**
     * The mount effect: with an admin id in the session the profile is
     * fetched (None when the request fails or carries no admin); without one
     * nothing is fetched.
     */
    method Mount(admin: Option<Record>) returns (fetched: bool)
      modifies this`adminData, this`loading
      ensures fetched <==> SessionUserId(session).Some?
      ensures fetched && admin.Some? ==> adminData == ProfileForm(admin.value)
      ensures !(fetched && admin.Some?) ==> adminData == old(adminData)
      ensures !loading
    {
      fetched := SessionUserId(session).Some?;
      if fetched && admin.Some? {
        adminData := ProfileForm(admin.value);
      }
      loading := false;
    }

    /** `handleChange`: one input rewritten. */
    method HandleChange(field: FormField, value: string)
      modifies this`adminData
      ensures adminData == SetField(old(adminData), field, value)
    {
      adminData := SetField(adminData, field, value);
    }

    /**
     * `handleUpdate`: a form that fails the checks sends nothing; otherwise
     * the payload is sent, and on status 200 the session copy is refreshed
     * and both password fields are cleared. Any other outcome (`status` None
     * for a request that throws) leaves the form and the session alone.
     */
    method HandleUpdate(status: Option<int>) returns (sent: Option<Record>)
      modifies this`adminData, this`session, this`updating
      ensures Validate(old(adminData)).Some? ==> sent == None
      ensures Validate(old(adminData)).None? ==> sent == Some(Payload(old(adminData)))
      ensures sent.Some? && status == Some(200) ==>
        session == Some(SessionAfterUpdate(old(session), old(adminData))) &&
        adminData == old(adminData).(password := "", confirmPassword := "")
      ensures !(sent.Some? && status == Some(200)) ==> session == old(session) && adminData == old(adminData)
      ensures !updating
    {
      updating := true;
      if Validate(adminData).Some? {
        updating := false;
        return None;
      }
      sent := Some(Payload(adminData));
      if status == Some(200) {
        session := Some(SessionAfterUpdate(session, adminData));
        adminData := adminData.(password := "", confirmPassword := "");
      }
      updating := false;
    }
  }

  /**
   * After a successful update the form passes the checks again and the
   * stored admin keeps its id, so the page still finds the admin.
   */
  lemma UpdateKeepsAdmin(session: Option<Record>, form: AdminForm)
    ensures Validate(form.(password := "", confirmPassword := "")) == None
    ensures SessionUserId(Some(SessionAfterUpdate(session, form))) == SessionUserId(session)
  {
    var updated := SessionAfterUpdate(session, form);
    assert "id" !in {"name", "email", "mobile"};
  }
}
