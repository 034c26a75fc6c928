/**
 * The registration form: its field validators (email not yet taken, an
 * available invitation code, password length and confirmation) and what a
 * successful sign-up writes: the user's profile and the used-up code.
 * Lookups in the store are `maybeSingle` reads of the matching rows.
 */
module Register {
  import opened Base
  import opened Strings
  import opened Seqs
  import opened JsonValues
  import opened Profiles
  import opened InvitationCodeService

  const MSG_EMAIL_REQUIRED := "请输入邮箱"
  const MSG_EMAIL_CHECK_FAILED := "验证邮箱失败，请稍后重试"
  const MSG_EMAIL_TAKEN := "该邮箱已被注册，请使用其他邮箱"
  const MSG_CODE_REQUIRED := "请输入邀请码"
  const MSG_CODE_CHECK_FAILED := "验证邀请码失败，请稍后重试"
  const MSG_CODE_UNKNOWN := "该邀请码不存在或已被使用"
  const MSG_PASSWORD_SHORT := "密码长度至少为6位"
  const MSG_PASSWORD_MISMATCH := "两次输入的密码不一致"

  /** The email validator, given the lookup of profiles with that email: `None` accepts. */
  function ValidateEmail(value: string, lookup: Fetch<string>): (r: Option<string>)
    ensures value == "" ==> r == Some(MSG_EMAIL_REQUIRED)
    ensures value != "" ==> (r.None? <==> lookup.NotFound?)
    ensures value != "" && lookup.Found? ==> r == Some(MSG_EMAIL_TAKEN)
    ensures value != "" && lookup.Failed? ==> r == Some(MSG_EMAIL_CHECK_FAILED)
  {
    if value == "" then Some(MSG_EMAIL_REQUIRED)
    else
      match lookup
      case Failed(_) => Some(MSG_EMAIL_CHECK_FAILED)
      case Found(_) => Some(MSG_EMAIL_TAKEN)
      case NotFound => None
  }

  /** Against the stored emails: a non-empty email passes exactly when no profile has it. */
  lemma EmailAcceptedIffUnused(emails: seq<string>, value: string)
    requires value != ""
    ensures ValidateEmail(value, MaybeSingle(Filter((e: string) => e == value, emails))).None? <==> value !in emails
  {
    var rows := Filter((e: string) => e == value, emails);
    if value in emails {
      var i :| 0 <= i < |emails| && emails[i] == value;
      assert emails[i] in rows;
    }
  }

  /** The invitation-code validator, given the lookup of available rows with that text: `None` accepts. */
  function ValidateCode(value: string, lookup: Fetch<Code>): (r: Option<string>)
    ensures value == "" ==> r == Some(MSG_CODE_REQUIRED)
    ensures value != "" ==> (r.None? <==> lookup.Found?)
    ensures value != "" && lookup.NotFound? ==> r == Some(MSG_CODE_UNKNOWN)
    ensures value != "" && lookup.Failed? ==> r == Some(MSG_CODE_CHECK_FAILED)
  {
    if value == "" then Some(MSG_CODE_REQUIRED)
    else
      match lookup
      case Failed(_) => Some(MSG_CODE_CHECK_FAILED)
      case NotFound => Some(MSG_CODE_UNKNOWN)
      case Found(_) => None
  }

  /** The code check against the table: `value` is accepted exactly when one available row carries it. */
  predicate CodeAccepted(table: seq<Code>, value: string)
  {
    ValidateCode(value, MaybeSingle(AvailableWithText(table, value))).None?
  }

  /** Sent (2) and used (0) rows never make a code acceptable; one available row does. */
  lemma CodeAcceptedIffAvailable(table: seq<Code>, value: string)
    requires value != ""
    ensures CodeAccepted(table, value) <==> |AvailableWithText(table, value)| == 1
    ensures (forall c :: c in table && c.code == value ==> c.status != AVAILABLE) ==> !CodeAccepted(table, value)
  {
    if CodeAccepted(table, value) {
      var a := AvailableWithText(table, value);
      assert a[0] in a;
      assert a[0] in table && a[0].code == value && a[0].status == AVAILABLE;
    }
  }

  /**
   * A code's life: freshly generated it admits one registration; once sent
   * in a batch, or once used by a registration, it admits none.
   */
  lemma CodeLifecycle(table: seq<Code>, user: string, text: string, id: int, now: int, email: string, iso: string)
    requires text != ""
    requires forall i :: 0 <= i < |table| ==> table[i].code != text
    ensures var t := Generate(table, Some(user), text, id, now).value;
      CodeAccepted(t, text)
      && !CodeAccepted(BatchSend(t, [id]), text)
      && !CodeAccepted(Consume(t, text, email, iso), text)
  {
    var added := Code(id, now, text, AVAILABLE, user, None, None);
    var t := Generate(table, Some(user), text, id, now).value;
    var keep := (c: Code) => c.code == text && c.status == AVAILABLE;
    assert t == table + [added];
    FilterAppend(keep, table, [added]);
    FilterNone(keep, table);
    assert Filter(keep, [added]) == [added];
    assert AvailableWithText(t, text) == [added];
    var sent := BatchSend(t, [id]);
    forall i | 0 <= i < |sent| ensures !keep(sent[i]) {
      if i < |table| {
        assert t[i] == table[i];
      }
    }
    FilterNone(keep, sent);
    CodeAcceptedIffAvailable(sent, text);
    ConsumedNotAvailable(t, text, email, iso);
  }

  /** Passwords: a non-empty one shorter than six characters is refused; an empty one is left to the required rule. */
  function ValidatePassword(value: string): (r: Option<string>)
    ensures r.Some? <==> value != "" && |value| < 6
    ensures r.Some? ==> r.value == MSG_PASSWORD_SHORT
  {
    if value != "" && |value| < 6 then Some(MSG_PASSWORD_SHORT) else None
  }

  /** The confirmation: refused exactly when it is non-empty and differs from the password. */
  function ValidateConfirm(password: string, value: string): (r: Option<string>)
    ensures r.Some? <==> value != "" && value != password
    ensures r.Some? ==> r.value == MSG_PASSWORD_MISMATCH
  {
    if value == "" || password == value then None else Some(MSG_PASSWORD_MISMATCH)
  }

  /** An industry of the registration picker; the select's value is the id's decimal text. */
  datatype PickIndustry = PickIndustry(id: int, name: string)

  /** The industry name stored for the picked value: the first industry whose id reads as that value, or "". */
  function IndustryNameFor(industries: seq<PickIndustry>, value: string): (r: string)
    ensures r != "" ==> exists i :: i in industries && IntToString(i.id) == value && i.name == r
    ensures (forall i :: i in industries ==> IntToString(i.id) != value) ==> r == ""
    ensures industries != [] && IntToString(industries[0].id) == value ==> r == industries[0].name
  {
    match Find((i: PickIndustry) => IntToString(i.id) == value, industries)
    case Some(i) => i.name
    case None => ""
  }

  /** Ids are distinct, so picking an industry stores its own name. */
  lemma PickedIndustryName(industries: seq<PickIndustry>, k: int)
    requires 0 <= k < |industries|
    requires forall i, j :: 0 <= i < j < |industries| ==> industries[i].id != industries[j].id
    ensures IndustryNameFor(industries, IntToString(industries[k].id)) == industries[k].name
  {
    var value := IntToString(industries[k].id);
    FindMisses(industries, value, k);
    var i := Find((x: PickIndustry) => IntToString(x.id) == value, industries).value;
    IntToStringInjective(i.id, industries[k].id);
    var j :| 0 <= j < |industries| && industries[j] == i;
    assert industries[j].id == industries[k].id;
  }

  /** An industry whose id reads as the value is found. */
  lemma FindMisses(industries: seq<PickIndustry>, value: string, k: int)
    requires 0 <= k < |industries| && IntToString(industries[k].id) == value
    ensures Find((i: PickIndustry) => IntToString(i.id) == value, industries).Some?
  {
    assert industries[k] in industries;
  }

  datatype RegisterForm = RegisterForm(email: string, password: string, confirmPassword: string, invitationCode: string, industry: string)

  /** The profile write of a new account: an update when a profile already exists, otherwise an insert. */
  datatype ProfileWrite = UpdateProfile(fields: Profile) | InsertProfile(row: Profile)

  function ProfileWriteFor(existing: bool, userId: string, email: string, industry: string, iso: string): (r: ProfileWrite)
    ensures existing <==> r.UpdateProfile?
    ensures r.UpdateProfile? ==> r.fields == map["email" := JStr(email), "industry" := JStr(industry), "updated_at" := JStr(iso)]
    ensures r.InsertProfile? ==> r.row.Keys == {"user_id", "email", "industry", "created_at", "updated_at"}
    ensures r.InsertProfile? ==> r.row["user_id"] == JStr(userId) && r.row["email"] == JStr(email) && r.row["industry"] == JStr(industry)
  {
    if existing then UpdateProfile(map["email" := JStr(email), "industry" := JStr(industry), "updated_at" := JStr(iso)])
    else InsertProfile(map["user_id" := JStr(userId), "email" := JStr(email), "industry" := JStr(industry),
      "created_at" := JStr(iso), "updated_at" := JStr(iso)])
  }

  /**
   * `onFinish`: a sign-up error, or no user returned, changes nothing;
   * otherwise the profile is written (`existing` says whether one was
   * found) and every row with the entered code is used up by this email.
   * Failures of those two writes only show a message.
   */
  function OnFinish(table: seq<Code>, signUp: Result<Option<string>>, form: RegisterForm, industries: seq<PickIndustry>, existing: bool, iso: string): (r: (seq<Code>, Option<ProfileWrite>))
    ensures !(signUp.Ok? && signUp.value.Some?) ==> r == (table, None)
    ensures signUp.Ok? && signUp.value.Some? ==>
      r.0 == Consume(table, form.invitationCode, form.email, iso)
      && r.1 == Some(ProfileWriteFor(existing, signUp.value.value, form.email, IndustryNameFor(industries, form.industry), iso))
  {
    match signUp
    case Ok(Some(userId)) =>
      (Consume(table, form.invitationCode, form.email, iso),
       Some(ProfileWriteFor(existing, userId, form.email, IndustryNameFor(industries, form.industry), iso)))
    case _ => (table, None)
  }

  /** After a successful registration the code used cannot admit another one. */
  lemma CodeSingleUse(table: seq<Code>, userId: string, form: RegisterForm, industries: seq<PickIndustry>, existing: bool, iso: string)
    requires form.invitationCode != ""
    ensures !CodeAccepted(OnFinish(table, Ok(Some(userId)), form, industries, existing, iso).0, form.invitationCode)
  {
    ConsumedNotAvailable(table, form.invitationCode, form.email, iso);
  }
}
