/**
 * The pure parts of static/js/notify.js: the style chosen for a toast type, the
 * display text derived from an authentication error, the account line of a success
 * toast, and the title and body each `toast...` helper passes to `notify`.
 */
module Notifications {
  import opened Wrappers
  import Text

  /** A property of a JavaScript value as `typeof x === "string"` sees it. */
  datatype StringProp = NotString | Str(s: string)

  /**
   * The names every object literal inherits from Object.prototype; `obj[name]` on a
   * literal that has no own property of that name reads a function (or, for
   * `__proto__`, the prototype object), which is truthy and not nullish.
   */
  const ObjectPrototypeMembers: set<string> := {
    "constructor", "hasOwnProperty", "isPrototypeOf", "propertyIsEnumerable", "toLocaleString",
    "toString", "valueOf", "__proto__", "__defineGetter__", "__defineSetter__",
    "__lookupGetter__", "__lookupSetter__"
  }

  /** What `obj[key]` reads from an object literal whose own properties are `table`. */
  datatype Property<V> = Own(value: V) | Inherited(name: string) | Undefined

  function Lookup<V>(table: map<string, V>, key: string): (p: Property<V>)
    ensures p.Own? <==> key in table
    ensures p.Own? ==> p.value == table[key]
    ensures p.Inherited? <==> key !in table && key in ObjectPrototypeMembers
  {
    if key in table then Own(table[key])
    else if key in ObjectPrototypeMembers then Inherited(key)
    else Undefined
  }

  // ---------------------------------------------------------------- toast styles

  datatype Style = Style(border: string, icon: string)

  /** `TYPE_STYLES`: the left-border colour and icon of each known toast type. */
  const TypeStyles: map<string, Style> := map[
    "success" := Style("border-blue-500", "✅"),
    "info" := Style("border-blue-500", "ℹ️"),
    "error" := Style("border-red-500", "⛔"),
    "warning" := Style("border-amber-400", "⚠️")
  ]

  const KnownTypes: set<string> := {"success", "info", "error", "warning"}

  /**
   * The destructuring `const { border, icon } = TYPE_STYLES[type] ?? TYPE_STYLES.info`
   * as written: an unknown type falls back to `info`, but a type named after an
   * Object.prototype member reads that member, whose `border` and `icon` are undefined.
   */
  function TypeStyleAsWritten(kind: string): (r: Option<Style>)
    ensures r.None? <==> kind !in KnownTypes && kind in ObjectPrototypeMembers
  {
    match Lookup(TypeStyles, kind)
    case Own(style) => Some(style)
    case Inherited(_) => None
    case Undefined => Some(TypeStyles["info"])
  }

  /** An Object.prototype name as toast type yields no border colour and no icon instead of the `info` ones. */
  lemma TypeStyleAsWrittenLosesFallback()
    ensures "constructor" !in KnownTypes && TypeStyleAsWritten("constructor").None?
  {
  }

  /** The style lookup of `buildToast` as intended: a known type's own style, `info`'s otherwise. */
  function TypeStyle(kind: string): (s: Style)
    ensures kind in KnownTypes ==> s == TypeStyles[kind]
    ensures kind !in KnownTypes ==> s == Style("border-blue-500", "ℹ️")
  {
    if kind in TypeStyles then TypeStyles[kind] else TypeStyles["info"]
  }

  /** The four known types have four different icons; every other type looks like `info`. */
  lemma TypeStylesDistinguishKinds(a: string, b: string)
    requires a in KnownTypes && b in KnownTypes && a != b
    ensures TypeStyle(a).icon != TypeStyle(b).icon
  {
  }

  /** Outside the Object.prototype names, the lookup as written and as intended agree. */
  lemma TypeStyleAgrees(kind: string)
    requires kind !in ObjectPrototypeMembers
    ensures TypeStyleAsWritten(kind) == Some(TypeStyle(kind))
  {
  }

  // ---------------------------------------------------------- authentication errors

  /** `AUTH_ERROR_MESSAGES`: the display text for each recognised error code. */
  const AuthErrorMessages: map<string, string> := map[
    "auth/invalid-email" := "อีเมลไม่ถูกต้อง",
    "auth/missing-email" := "กรุณากรอกอีเมล",
    "auth/missing-input" := "กรุณากรอกข้อมูลให้ครบถ้วน",
    "auth/user-disabled" := "บัญชีนี้ถูกระงับการใช้งาน",
    "auth/user-not-found" := "ไม่พบบัญชีผู้ใช้",
    "auth/wrong-password" := "รหัสผ่านไม่ถูกต้อง",
    "auth/invalid-credential" := "ข้อมูลเข้าสู่ระบบไม่ถูกต้อง",
    "auth/email-already-in-use" := "อีเมลนี้ถูกใช้งานแล้ว",
    "auth/weak-password" := "รหัสผ่านสั้นเกินไป",
    "auth/missing-password" := "กรุณากรอกรหัสผ่าน",
    "auth/password-mismatch" := "กรุณายืนยันรหัสผ่านให้ตรงกัน",
    "auth/too-many-requests" := "พยายามเข้าสู่ระบบบ่อยเกินไป โปรดลองใหม่ภายหลัง",
    "auth/network-request-failed" := "ไม่สามารถเชื่อมต่อเครือข่ายได้",
    "auth/operation-not-allowed" := "วิธีการนี้ยังไม่เปิดใช้งาน",
    "auth/popup-closed-by-user" := "คุณปิดหน้าต่างก่อนดำเนินการเสร็จ",
    "auth/requires-recent-login" := "กรุณาเข้าสู่ระบบอีกครั้งเพื่อดำเนินการ",
    "auth/credential-already-in-use" := "บัญชีนี้เชื่อมโยงกับบริการอื่นแล้ว",
    "app/missing-firebase-config" := "ระบบยังไม่ได้ตั้งค่าการเชื่อมต่อกับ Firebase"
  ]

  const DefaultAuthError := "เกิดข้อผิดพลาดที่ไม่ทราบสาเหตุ"

  /** Every code of the table starts with `a` (`auth/...`, `app/...`), and every text of it is non-empty. */
  lemma AuthCodesStartWithA()
    ensures forall code :: code in AuthErrorMessages ==> |code| > 0 && code[0] == 'a' && |AuthErrorMessages[code]| > 0
  {
  }

  /** No member of Object.prototype has a name starting with `a`. */
  lemma PrototypeNamesAvoidA()
    ensures forall name :: name in ObjectPrototypeMembers ==> |name| > 0 && name[0] != 'a'
  {
  }

  /** No code of the table is empty or an Object.prototype name, and no text of it is empty. */
  lemma AuthTableFacts()
    ensures "" !in AuthErrorMessages
    ensures forall code :: code in AuthErrorMessages ==> code !in ObjectPrototypeMembers && AuthErrorMessages[code] != ""
  {
    AuthCodesStartWithA();
    PrototypeNamesAvoidA();
  }

  /** The argument of `getAuthErrorMessage`: a falsy value, or a value whose `code` and `message` are read. */
  datatype ErrorArg = Falsy | ErrorLike(code: StringProp, message: StringProp)

  /** The code an error carries, "" when `code` is not a string. */
  function CodeOf(e: ErrorArg): string
  {
    if e.ErrorLike? && e.code.Str? then e.code.s else ""
  }

  /** The trimmed message an error carries, "" when `message` is not a string. */
  function MessageOf(e: ErrorArg): string
  {
    if e.ErrorLike? && e.message.Str? then Text.Trim(e.message.s, Text.JsWhitespace) else ""
  }

  /** A JavaScript value returned where a string is expected: a string, or an inherited member. */
  datatype JsValue = JsString(s: string) | JsMember(name: string)

  /**
   * `getAuthErrorMessage` as written: `AUTH_ERROR_MESSAGES[code]` also finds the
   * members every object inherits, so a code such as "toString" returns a function.
   */
  function AuthErrorMessageAsWritten(e: ErrorArg): (r: JsValue)
    ensures r.JsMember? <==> e.ErrorLike? && CodeOf(e) in ObjectPrototypeMembers
  {
    AuthTableFacts();
    if e.Falsy? then JsString(DefaultAuthError)
    else
      var code := CodeOf(e);
      var entry := if code != "" then Lookup(AuthErrorMessages, code) else Undefined;
      match entry
      case Own(text) => JsString(text)
      case Inherited(name) => JsMember(name)
      case Undefined =>
        var message := MessageOf(e);
        JsString(if message != "" then message else DefaultAuthError)
  }

  /** An error whose code is "toString" is turned into a function, not a display text. */
  lemma AuthErrorMessageAsWrittenEscapes(message: StringProp)
    ensures AuthErrorMessageAsWritten(ErrorLike(Str("toString"), message)) == JsMember("toString")
  {
  }

  /**
   * `getAuthErrorMessage` as intended: a falsy error gives the default text; a string
   * code found in the table gives the table's text, whatever the message; otherwise
   * the trimmed message when it is non-empty, and the default text when it is not.
   */
  function AuthErrorMessage(e: ErrorArg): (r: string)
    ensures r != ""
    ensures e.Falsy? ==> r == DefaultAuthError
    ensures e.ErrorLike? && CodeOf(e) in AuthErrorMessages ==> r == AuthErrorMessages[CodeOf(e)]
    ensures e.ErrorLike? && CodeOf(e) !in AuthErrorMessages ==>
      r == (if MessageOf(e) != "" then MessageOf(e) else DefaultAuthError)
  {
    AuthTableFacts();
    if e.Falsy? then DefaultAuthError
    else
      var code := CodeOf(e);
      if code != "" && code in AuthErrorMessages then AuthErrorMessages[code]
      else
        var message := MessageOf(e);
        if message != "" then message else DefaultAuthError
  }

  /** Every text `AuthErrorMessage` returns is a table entry, the default, or the error's own trimmed message. */
  lemma AuthErrorMessageSource(e: ErrorArg)
    ensures var r := AuthErrorMessage(e);
      r in AuthErrorMessages.Values || r == DefaultAuthError ||
      (e.ErrorLike? && e.message.Str? && r == Text.Trim(e.message.s, Text.JsWhitespace) && Text.Trim(r, Text.JsWhitespace) == r)
  {
    var r := AuthErrorMessage(e);
    if e.ErrorLike? && CodeOf(e) in AuthErrorMessages {
      assert r == AuthErrorMessages[CodeOf(e)];
    } else if e.ErrorLike? && e.message.Str? {
      Text.TrimIdempotent(e.message.s, Text.JsWhitespace);
    }
  }

  /** Outside the Object.prototype names, the lookup as written and as intended agree. */
  lemma AuthErrorMessageAgrees(e: ErrorArg)
    requires CodeOf(e) !in ObjectPrototypeMembers
    ensures AuthErrorMessageAsWritten(e) == JsString(AuthErrorMessage(e))
  {
  }

  // ------------------------------------------------------------- account subtitle

  /** The `user` argument: absent, or a value whose `email` is read. */
  datatype UserArg = NoUser | UserLike(email: StringProp)

  /** The trimmed e-mail of a user, "" when there is no string e-mail. */
  function EmailOf(user: UserArg): string
  {
    if user.UserLike? && user.email.Str? then Text.Trim(user.email.s, Text.JsWhitespace) else ""
  }

  lemma EmailTrimmed(user: UserArg)
    ensures Text.Trim(EmailOf(user), Text.JsWhitespace) == EmailOf(user)
  {
    if user.UserLike? && user.email.Str? {
      Text.TrimIdempotent(user.email.s, Text.JsWhitespace);
    }
  }

  /**
   * `userIdentifier`: the trimmed e-mail when it is non-empty, else the trimmed
   * fallback (an absent fallback reads as ""). The result never has whitespace to trim.
   */
  function UserIdentifier(user: UserArg, fallback: string): (r: string)
    ensures EmailOf(user) != "" ==> r == EmailOf(user)
    ensures EmailOf(user) == "" ==> r == Text.Trim(fallback, Text.JsWhitespace)
  {
    var email := EmailOf(user);
    if email != "" then email else Text.Trim(fallback, Text.JsWhitespace)
  }

  /** An identifier has no surrounding whitespace left to trim. */
  lemma UserIdentifierTrimmed(user: UserArg, fallback: string)
    ensures Text.Trim(UserIdentifier(user, fallback), Text.JsWhitespace) == UserIdentifier(user, fallback)
  {
    EmailTrimmed(user);
    Text.TrimIdempotent(fallback, Text.JsWhitespace);
  }

  const AccountPrefix := "บัญชี: "

  /** `accountSubtitle`: empty exactly when there is no identifier, else the prefix and the identifier. */
  function AccountSubtitle(user: UserArg, fallback: string): (r: string)
    ensures r == "" <==> UserIdentifier(user, fallback) == ""
    ensures r != "" ==> r == AccountPrefix + UserIdentifier(user, fallback)
  {
    var identifier := UserIdentifier(user, fallback);
    if identifier != "" then AccountPrefix + identifier else ""
  }

  // ------------------------------------------------------------- toast helpers

  /** The outcomes the exported `toast...` helpers report. An absent identifier reads as "". */
  datatype AuthEvent =
    | LoginSucceeded(user: UserArg, identifier: string)
    | LoginFailed(error: ErrorArg)
    | SignupSucceeded(user: UserArg, identifier: string)
    | SignupFailed(error: ErrorArg)
    | LogoutSucceeded
    | LogoutFailed(error: ErrorArg)
    | ProfileUpdated
    | ProfileUpdateFailed(error: ErrorArg)
    | ProfileMissingUser
    | AlreadySignedIn(user: UserArg)
  {
    predicate IsFailure()
    {
      LoginFailed? || SignupFailed? || LogoutFailed? || ProfileUpdateFailed? || ProfileMissingUser?
    }
  }

  /** The arguments of one `notify(type, title, text)` call. */
  datatype Message = Message(kind: string, title: string, text: string)

  const SignupWelcome := "ยินดีต้อนรับสู่ AI Health Analyze"

  /**
   * The `notify` call each helper makes. Failures are `error` toasts whose body is
   * never empty; a signup success always has a body; every toast has a title.
   */
  function ToastFor(ev: AuthEvent): (m: Message)
    ensures m.kind in KnownTypes && m.title != ""
  {
    match ev
    case LoginSucceeded(user, identifier) =>
      Message("success", "เข้าสู่ระบบสำเร็จ", AccountSubtitle(user, identifier))
    case LoginFailed(error) =>
      Message("error", "เข้าสู่ระบบไม่สำเร็จ", AuthErrorMessage(error))
    case SignupSucceeded(user, identifier) =>
      var subtitle := AccountSubtitle(user, identifier);
      Message("success", "สมัครสมาชิกสำเร็จ", if subtitle != "" then subtitle else SignupWelcome)
    case SignupFailed(error) =>
      Message("error", "สมัครสมาชิกไม่สำเร็จ", AuthErrorMessage(error))
    case LogoutSucceeded =>
      Message("success", "ออกจากระบบแล้ว", "กลับมาเมื่อไรก็ยินดีต้อนรับ")
    case LogoutFailed(error) =>
      Message("error", "ออกจากระบบไม่สำเร็จ", AuthErrorMessage(error))
    case ProfileUpdated =>
      Message("success", "อัปเดตโปรไฟล์สำเร็จ", "")
    case ProfileUpdateFailed(error) =>
      Message("error", "อัปเดตโปรไฟล์ไม่สำเร็จ", AuthErrorMessage(error))
    case ProfileMissingUser =>
      Message("error", "อัปเดตโปรไฟล์ไม่สำเร็จ", "ไม่พบผู้ใช้ กรุณาเข้าสู่ระบบก่อน")
    case AlreadySignedIn(user) =>
      Message("info", "เข้าสู่ระบบแล้ว", AccountSubtitle(user, ""))
  }

  /** A toast is an error toast exactly when it reports a failure. */
  lemma ErrorToastsAreFailures(ev: AuthEvent)
    ensures ToastFor(ev).kind == "error" <==> ev.IsFailure()
  {
    match ev
    case LoginSucceeded(_, _) =>
    case LoginFailed(_) =>
    case SignupSucceeded(_, _) =>
    case SignupFailed(_) =>
    case LogoutSucceeded =>
    case LogoutFailed(_) =>
    case ProfileUpdated =>
    case ProfileUpdateFailed(_) =>
    case ProfileMissingUser =>
    case AlreadySignedIn(_) =>
  }

  /** A failure toast always explains itself, and a signup toast always has a body. */
  lemma ToastBodies(ev: AuthEvent)
    ensures ev.IsFailure() || ev.SignupSucceeded? ==> ToastFor(ev).text != ""
  {
    if ev.IsFailure() && !ev.ProfileMissingUser? {
      assert ToastFor(ev).text == AuthErrorMessage(ev.error);
    }
  }

  /**
   * The four failure helpers that take an error show its display text: the text
   * `getAuthErrorMessage` returns whenever that is a string, and for a code named after
   * an Object.prototype member (where it returns that member) the intended text.
   */
  lemma ToastKinds(ev: AuthEvent)
    requires ev.LoginFailed? || ev.SignupFailed? || ev.LogoutFailed? || ev.ProfileUpdateFailed?
    ensures ToastFor(ev).kind == "error"
    ensures ToastFor(ev).text == AuthErrorMessage(ev.error)
    ensures AuthErrorMessageAsWritten(ev.error).JsString? ==> ToastFor(ev).text == AuthErrorMessageAsWritten(ev.error).s
  {
    if CodeOf(ev.error) !in ObjectPrototypeMembers {
      AuthErrorMessageAgrees(ev.error);
    }
  }

  /** A signup toast shows the account line when there is one and the welcome text otherwise. */
  lemma SignupSubtitleFallback(user: UserArg, identifier: string)
    ensures var m := ToastFor(SignupSucceeded(user, identifier));
      (UserIdentifier(user, identifier) == "" ==> m.text == SignupWelcome) &&
      (UserIdentifier(user, identifier) != "" ==> m.text == AccountPrefix + UserIdentifier(user, identifier))
  {
  }
}
