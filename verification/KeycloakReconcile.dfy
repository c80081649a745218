/**
  Reconciliation of the identity realm: registration is closed first and opened last.

  `Keycloak` is the remote side. Each request is one atomic step that may fail before its effect or
  lose its answer after it; either way the reconciler ends. `Keycloak.log` records, over all runs,
  what took effect.
 */
module KeycloakReconcile {
  import opened Outcomes
  import opened PasswordPolicy
  import opened Wrappers

  // ---------------------------------------------------------------- realm documents

  datatype Json =
    | JNull | JBool(b: bool) | JInt(n: int) | JString(s: string)
    | JList(items: seq<Json>) | JObject(fields: map<string, Json>)

  /** The keys that the reconciler writes, and any other key. */
  datatype Key =
    | RegistrationAllowed | RegistrationEmailAsUsername | EditUsernameAllowed | DuplicateEmailsAllowed
    | LoginWithEmailAllowed | VerifyEmail | ResetPasswordAllowed | ActionTokenLifespan | ActionCodeLifespan
    | RememberMe | BruteForceProtected | SmtpServer
    | LoginTheme | EmailTheme | InternationalizationEnabled | SupportedLocales | DefaultLocale | Policy
    | Attributes | OtherKey(name: string)

  type Realm = map<Key, Json>

  const ACTION_LIFESPAN_SECONDS := 3600
  const THEME := "agent-room"
  const APP_URL_ATTRIBUTE := "agentRoomAppUrl"

  function RegistrationFields(enabled: bool): Realm {
    map[
      RegistrationAllowed := JBool(enabled),
      RegistrationEmailAsUsername := JBool(true),
      EditUsernameAllowed := JBool(false),
      DuplicateEmailsAllowed := JBool(false),
      LoginWithEmailAllowed := JBool(true),
      VerifyEmail := JBool(true),
      ResetPasswordAllowed := JBool(true),
      ActionTokenLifespan := JInt(ACTION_LIFESPAN_SECONDS),
      ActionCodeLifespan := JInt(ACTION_LIFESPAN_SECONDS),
      RememberMe := JBool(true),
      BruteForceProtected := JBool(true)]
  }

  /** `apply_registration_policy`. */
  function WithRegistration(realm: Realm, enabled: bool, smtp: Option<Json>): Realm {
    WithMail(realm + RegistrationFields(enabled), smtp)
  }

  function WithMail(realm: Realm, smtp: Option<Json>): Realm {
    match smtp
    case None => realm - {SmtpServer}
    case Some(settings) => realm[SmtpServer := settings]
  }

  function PolicyText(realm: Realm): Option<string> {
    if Policy in realm && realm[Policy].JString? then Some(realm[Policy].s) else None
  }

  function PresentationFields(policy: string): Realm {
    map[
      LoginTheme := JString(THEME),
      EmailTheme := JString(THEME),
      InternationalizationEnabled := JBool(true),
      SupportedLocales := JList([JString("zh-Hans"), JString("en")]),
      DefaultLocale := JString("en"),
      Policy := JString(policy)]
  }

  /** `apply_presentation_policy`. */
  function WithPresentation(realm: Realm): Realm {
    realm + PresentationFields(PasswordPolicy.PasswordPolicy(PolicyText(realm)))
  }

  /** `apply_app_url`. */
  function WithAppUrl(realm: Realm, origin: string): Realm {
    realm[Attributes := JObject(UrlFields(realm, origin))]
  }

  function Closed(realm: Realm): Realm {
    WithPresentation(WithRegistration(realm, false, None))
  }

  function ClosedWithUrl(realm: Realm, origin: string): Realm {
    WithAppUrl(Closed(realm), origin)
  }

  predicate IsOpen(realm: Realm) {
    RegistrationAllowed in realm && realm[RegistrationAllowed] == JBool(true)
  }

  lemma FieldsAreApart(enabled: bool, policy: string)
    ensures RegistrationFields(enabled).Keys !! PresentationFields(policy).Keys
    ensures SmtpServer !in RegistrationFields(enabled) && SmtpServer !in PresentationFields(policy)
    ensures Attributes !in RegistrationFields(enabled) && Attributes !in PresentationFields(policy)
    ensures Policy in PresentationFields(policy) && PresentationFields(policy)[Policy] == JString(policy)
    ensures RegistrationFields(enabled)[RegistrationAllowed] == JBool(enabled)
  {
  }

  /** Writing the same fields again, in the same order, changes nothing. */
  lemma WritingTwice(realm: Realm, a: Realm, b: Realm, gone: Key, key: Key, value: Json)
    requires a.Keys !! b.Keys && gone !in a && gone !in b && key !in a && key !in b && gone != key
    ensures var once := ((realm + a - {gone}) + b)[key := value];
            ((once + a - {gone}) + b)[key := value] == once
  {
  }

  lemma RegistrationKeepsPolicy(realm: Realm, enabled: bool, smtp: Option<Json>)
    ensures PolicyText(WithRegistration(realm, enabled, smtp)) == PolicyText(realm)
    ensures IsOpen(WithRegistration(realm, enabled, smtp)) == enabled
  {
    FieldsAreApart(enabled, "");
    assert Policy in PresentationFields("") && RegistrationAllowed in RegistrationFields(enabled);
  }

  /** Adding fields decides the keys among them and no other key. */
  lemma AddedFields(realm: Realm, fields: Realm, inside: Key, outside: Key)
    requires inside in fields && outside !in fields
    ensures (realm + fields)[inside] == fields[inside]
    ensures outside in realm + fields <==> outside in realm
    ensures outside in realm ==> (realm + fields)[outside] == realm[outside]
  {
  }

  lemma ClosedPolicy(realm: Realm, origin: string)
    ensures PolicyText(ClosedWithUrl(realm, origin)) == Some(PasswordPolicy.PasswordPolicy(PolicyText(realm)))
    ensures !IsOpen(Closed(realm)) && !IsOpen(ClosedWithUrl(realm, origin))
  {
    var registered := WithRegistration(realm, false, None);
    var policy := PasswordPolicy.PasswordPolicy(PolicyText(realm));
    RegistrationKeepsPolicy(realm, false, None);
    FieldsAreApart(false, policy);
    AddedFields(registered, PresentationFields(policy), Policy, RegistrationAllowed);
  }

  function UrlFields(realm: Realm, origin: string): map<string, Json> {
    (if Attributes in realm && realm[Attributes].JObject? then realm[Attributes].fields else map[])
      [APP_URL_ATTRIBUTE := JString(origin + "/")]
  }

  lemma ClosedIs(realm: Realm, policy: string)
    requires policy == PasswordPolicy.PasswordPolicy(PolicyText(realm))
    ensures Closed(realm) == (realm + RegistrationFields(false) - {SmtpServer}) + PresentationFields(policy)
  {
    RegistrationKeepsPolicy(realm, false, None);
  }

  /** The closed realm is a fixed point of the update exactly when the kept terms of its password policy settle. */
  lemma ClosedRealmIsSettled(realm: Realm, origin: string)
    ensures ClosedWithUrl(ClosedWithUrl(realm, origin), origin) == ClosedWithUrl(realm, origin)
       <==> Settles(Kept(Terms(PolicyText(realm))))
  {
    var once := ClosedWithUrl(realm, origin);
    var policy := PasswordPolicy.PasswordPolicy(PolicyText(realm));
    PolicyIsIdempotent(PolicyText(realm));
    ClosedPolicy(realm, origin);
    ClosedPolicy(once, origin);
    if Settles(Kept(Terms(PolicyText(realm)))) {
      ClosedIs(realm, policy);
      ClosedIs(once, policy);
      FieldsAreApart(false, policy);
      SettledFields(realm, RegistrationFields(false), PresentationFields(policy), origin);
    }
  }

  lemma SettledFields(realm: Realm, a: Realm, b: Realm, origin: string)
    requires a.Keys !! b.Keys && SmtpServer !in a && SmtpServer !in b && Attributes !in a && Attributes !in b
    ensures var once := WithAppUrl((realm + a - {SmtpServer}) + b, origin);
            WithAppUrl((once + a - {SmtpServer}) + b, origin) == once
  {
    var closed := (realm + a - {SmtpServer}) + b;
    var once := WithAppUrl(closed, origin);
    WritingTwice(realm, a, b, SmtpServer, Attributes, JObject(UrlFields(closed, origin)));
    assert UrlFields((once + a - {SmtpServer}) + b, origin) == UrlFields(closed, origin);
  }

  /** Opening a closed realm opens it, and closing it again undoes that under the same condition. */
  lemma ClosingUndoesOpening(realm: Realm, origin: string, smtp: Json)
    ensures var closed := ClosedWithUrl(realm, origin);
            var open := WithRegistration(closed, true, Some(smtp));
            && IsOpen(open) && !IsOpen(closed)
            && (ClosedWithUrl(open, origin) == closed <==> Settles(Kept(Terms(PolicyText(realm)))))
  {
    var closed := ClosedWithUrl(realm, origin);
    ClosedRealmIsSettled(realm, origin);
    ClosedPolicy(realm, origin);
    RegistrationKeepsPolicy(closed, true, Some(smtp));
    Overwritten(closed, smtp);
  }

  lemma Overwritten(closed: Realm, smtp: Json)
    ensures WithRegistration(WithRegistration(closed, true, Some(smtp)), false, None)
         == WithRegistration(closed, false, None)
  {
    assert RegistrationFields(true).Keys == RegistrationFields(false).Keys;
  }

  // ---------------------------------------------------------------- setting by setting

  predicate Is(realm: Realm, key: Key, value: Json) {
    key in realm && realm[key] == value
  }

  /** Accounts are e-mail addresses, and an address is verified. */
  predicate VerifiesAddresses(realm: Realm) {
    Is(realm, VerifyEmail, JBool(true)) && Is(realm, RegistrationEmailAsUsername, JBool(true))
  }

  predicate AccountSettings(realm: Realm, open: bool) {
    && Is(realm, RegistrationAllowed, JBool(open)) && VerifiesAddresses(realm)
    && Is(realm, EditUsernameAllowed, JBool(false)) && Is(realm, DuplicateEmailsAllowed, JBool(false))
    && Is(realm, LoginWithEmailAllowed, JBool(true)) && Is(realm, ResetPasswordAllowed, JBool(true))
    && Is(realm, ActionTokenLifespan, JInt(3600)) && Is(realm, ActionCodeLifespan, JInt(3600))
    && Is(realm, RememberMe, JBool(true)) && Is(realm, BruteForceProtected, JBool(true))
  }

  predicate PresentationSettings(realm: Realm) {
    && Is(realm, LoginTheme, JString("agent-room")) && Is(realm, EmailTheme, JString("agent-room"))
    && Is(realm, InternationalizationEnabled, JBool(true)) && Is(realm, DefaultLocale, JString("en"))
    && Is(realm, SupportedLocales, JList([JString("zh-Hans"), JString("en")]))
  }

  predicate HasAttribute(realm: Realm, name: string, value: Json) {
    Attributes in realm && realm[Attributes].JObject? && name in realm[Attributes].fields
    && realm[Attributes].fields[name] == value
  }

  /** The address with its final slash, and every other attribute of the realm before. */
  ghost predicate AttributeSettings(before: Realm, realm: Realm, origin: string) {
    && HasAttribute(realm, "agentRoomAppUrl", JString(origin + "/"))
    && forall name, value :: name != "agentRoomAppUrl" ==>
         (HasAttribute(realm, name, value) <==> HasAttribute(before, name, value))
  }

  /** The mail settings, if any. */
  predicate MailSettings(realm: Realm, smtp: Option<Json>) {
    if smtp.Some? then Is(realm, SmtpServer, smtp.value) else SmtpServer !in realm
  }

  /** All other keys are as they were. */
  ghost predicate OthersKept(before: Realm, realm: Realm) {
    forall name, value :: Is(realm, OtherKey(name), value) <==> Is(before, OtherKey(name), value)
  }

  /** What a complete run leaves with this policy, opened with mail settings or closed without. */
  ghost predicate Configured(before: Realm, realm: Realm, policy: string, origin: string, smtp: Option<Json>) {
    && AccountSettings(realm, smtp.Some?) && PresentationSettings(realm) && MailSettings(realm, smtp)
    && Is(realm, Policy, JString(policy))
    && AttributeSettings(before, realm, origin) && OthersKept(before, realm)
  }

  datatype Group = Account | Mail | Presentation | Address | Others

  function GroupOf(key: Key): Group {
    match key
    case SmtpServer => Mail
    case LoginTheme => Presentation
    case EmailTheme => Presentation
    case InternationalizationEnabled => Presentation
    case SupportedLocales => Presentation
    case DefaultLocale => Presentation
    case Policy => Presentation
    case Attributes => Address
    case OtherKey(_) => Others
    case _ => Account
  }

  /** All settings of other groups are the same. */
  ghost predicate OnlyGroup(before: Realm, now: Realm, group: Group) {
    forall key, value :: GroupOf(key) != group ==> (Is(now, key, value) <==> Is(before, key, value))
  }

  lemma RegistrationFieldsSay(enabled: bool)
    ensures AccountSettings(RegistrationFields(enabled), enabled)
    ensures forall key :: key in RegistrationFields(enabled) ==> GroupOf(key) == Account
  {
  }

  lemma PresentationFieldsSay(policy: string)
    ensures PresentationSettings(PresentationFields(policy)) && Is(PresentationFields(policy), Policy, JString(policy))
    ensures forall key :: key in PresentationFields(policy) ==> GroupOf(key) == Presentation
  {
  }

  /** Written fields are there, and settings of other groups stay. */
  lemma WrittenOver(realm: Realm, fields: Realm, group: Group)
    requires forall key :: key in fields ==> GroupOf(key) == group
    ensures OnlyGroup(realm, realm + fields, group)
    ensures forall key, value :: Is(fields, key, value) ==> Is(realm + fields, key, value)
  {
  }

  /** Settings of the groups that stay, read again. */
  lemma SettingsKept(before: Realm, now: Realm, group: Group)
    requires OnlyGroup(before, now, group)
    ensures group != Account ==> forall open :: AccountSettings(before, open) ==> AccountSettings(now, open)
    ensures group != Presentation ==> PresentationSettings(before) ==> PresentationSettings(now)
    ensures group != Others ==> OthersKept(before, now)
    ensures group != Mail ==> SmtpServer !in before ==> SmtpServer !in now
  {
    if SmtpServer in now {
      assert Is(now, SmtpServer, now[SmtpServer]);
    }
  }

  lemma RegistrationSettings(realm: Realm, enabled: bool)
    ensures AccountSettings(realm + RegistrationFields(enabled), enabled)
    ensures OnlyGroup(realm, realm + RegistrationFields(enabled), Account)
  {
    RegistrationFieldsSay(enabled);
    WrittenOver(realm, RegistrationFields(enabled), Account);
  }

  lemma MailWritten(realm: Realm, smtp: Option<Json>)
    ensures OnlyGroup(realm, WithMail(realm, smtp), Mail) && MailSettings(WithMail(realm, smtp), smtp)
  {
  }

  /** What a registration update keeps and sets. */
  ghost predicate Registered(realm: Realm, now: Realm, open: bool, smtp: Option<Json>) {
    && AccountSettings(now, open) && MailSettings(now, smtp) && OthersKept(realm, now)
    && (PresentationSettings(realm) ==> PresentationSettings(now))
    && forall value :: && (Is(now, Policy, value) <==> Is(realm, Policy, value))
                       && (Is(now, Attributes, value) <==> Is(realm, Attributes, value))
  }

  lemma TwoGroups(realm: Realm, between: Realm, now: Realm, open: bool, smtp: Option<Json>)
    requires AccountSettings(between, open) && OnlyGroup(realm, between, Account)
    requires MailSettings(now, smtp) && OnlyGroup(between, now, Mail)
    ensures Registered(realm, now, open, smtp)
  {
    SettingsKept(realm, between, Account);
    SettingsKept(between, now, Mail);
  }

  lemma RegistrationUpdate(realm: Realm, enabled: bool, smtp: Option<Json>)
    ensures Registered(realm, WithRegistration(realm, enabled, smtp), enabled, smtp)
  {
    var between := realm + RegistrationFields(enabled);
    RegistrationSettings(realm, enabled);
    MailWritten(between, smtp);
    TwoGroups(realm, between, WithMail(between, smtp), enabled, smtp);
  }

  lemma PresentationUpdate(realm: Realm, policy: string)
    ensures var now := realm + PresentationFields(policy);
            && PresentationSettings(now) && Is(now, Policy, JString(policy)) && OnlyGroup(realm, now, Presentation)
  {
    PresentationFieldsSay(policy);
    WrittenOver(realm, PresentationFields(policy), Presentation);
  }

  lemma AddressUpdate(realm: Realm, origin: string)
    ensures AttributeSettings(realm, WithAppUrl(realm, origin), origin)
    ensures OnlyGroup(realm, WithAppUrl(realm, origin), Address)
  {
  }

  lemma SameAttributes(a: Realm, b: Realm, realm: Realm, origin: string)
    requires forall value :: Is(a, Attributes, value) <==> Is(b, Attributes, value)
    requires AttributeSettings(b, realm, origin)
    ensures AttributeSettings(a, realm, origin)
  {
    if Attributes in a {
      assert Is(a, Attributes, a[Attributes]);
    }
    if Attributes in b {
      assert Is(b, Attributes, b[Attributes]);
    }
    assert forall name, value :: HasAttribute(a, name, value) <==> HasAttribute(b, name, value);
  }

  /** The three updates one after another. */
  lemma ThreeUpdates(realm: Realm, registered: Realm, closed: Realm, now: Realm, policy: string, origin: string)
    requires Registered(realm, registered, false, None)
    requires PresentationSettings(closed) && OnlyGroup(registered, closed, Presentation)
    requires Is(closed, Policy, JString(policy))
    requires AttributeSettings(closed, now, origin) && OnlyGroup(closed, now, Address)
    ensures Configured(realm, now, policy, origin, None)
  {
    TwoUpdates(realm, registered, closed);
    SettingsKept(closed, now, Address);
    SameAttributes(realm, closed, now, origin);
  }

  lemma TwoUpdates(realm: Realm, registered: Realm, closed: Realm)
    requires Registered(realm, registered, false, None)
    requires PresentationSettings(closed) && OnlyGroup(registered, closed, Presentation)
    ensures AccountSettings(closed, false) && SmtpServer !in closed && OthersKept(realm, closed)
    ensures forall value :: Is(closed, Attributes, value) <==> Is(realm, Attributes, value)
  {
    SettingsKept(registered, closed, Presentation);
  }

  lemma ClosedIsConfigured(realm: Realm, origin: string)
    ensures var policy := PasswordPolicy.PasswordPolicy(PolicyText(realm));
            Configured(realm, ClosedWithUrl(realm, origin), policy, origin, None)
  {
    var policy := PasswordPolicy.PasswordPolicy(PolicyText(realm));
    var registered := WithRegistration(realm, false, None);
    RegistrationUpdate(realm, false, None);
    RegistrationKeepsPolicy(realm, false, None);
    PresentationUpdate(registered, policy);
    AddressUpdate(Closed(realm), origin);
    ThreeUpdates(realm, registered, Closed(realm), ClosedWithUrl(realm, origin), policy, origin);
  }

  /** Opening a realm that is configured leaves it configured, with the mail settings given. */
  lemma OpenIsConfigured(realm: Realm, closed: Realm, now: Realm, policy: string, origin: string, smtp: Json)
    requires Configured(realm, closed, policy, origin, None) && Registered(closed, now, true, Some(smtp))
    ensures Configured(realm, now, policy, origin, Some(smtp))
  {
    AttributesAsBefore(realm, closed, now, origin);
  }

  lemma AttributesAsBefore(before: Realm, closed: Realm, now: Realm, origin: string)
    requires forall value :: Is(now, Attributes, value) <==> Is(closed, Attributes, value)
    requires AttributeSettings(before, closed, origin)
    ensures AttributeSettings(before, now, origin)
  {
    if Attributes in closed {
      assert Is(closed, Attributes, closed[Attributes]);
    }
    if Attributes in now {
      assert Is(now, Attributes, now[Attributes]);
    }
    assert forall name, value :: HasAttribute(now, name, value) <==> HasAttribute(closed, name, value);
  }

  // ---------------------------------------------------------------- what a log may contain

  datatype Mode = ClosedMode | OpenEmail

  datatype Event =
    | RunStarted(mode: Mode)
    | RealmPut(realm: Realm)
    | SmtpVerified
    | SwitchConfirmed

  /** The realm after the log, starting from `initial`. */
  function RealmAfter(initial: Realm, log: seq<Event>): Realm {
    if log == [] then initial
    else
      var last := log[|log| - 1];
      if last.RealmPut? then last.realm else RealmAfter(initial, log[..|log| - 1])
  }

  /** What the current run did so far. */
  datatype Progress = Progress(mode: Option<Mode>, wrote: bool, smtp: bool, confirmed: bool)

  function Current(log: seq<Event>): Progress {
    if log == [] then Progress(None, false, false, false)
    else
      var p := Current(log[..|log| - 1]);
      match log[|log| - 1]
      case RunStarted(mode) => Progress(Some(mode), false, false, false)
      case RealmPut(_) => p.(wrote := true)
      case SmtpVerified => p.(smtp := true)
      case SwitchConfirmed => p.(confirmed := true)
  }

  /**
    The first update of a run closes the realm; a realm may be opened only by a run in open mode that
    has closed it, has checked the mail settings and has just read the password switch back.
   */
  predicate Permitted(log: seq<Event>, e: Event) {
    var p := Current(log);
    match e
    case RealmPut(realm) =>
      && p.mode.Some?
      && (IsOpen(realm) ==> p.wrote && p.mode == Some(OpenEmail) && p.smtp && log[|log| - 1] == SwitchConfirmed)
      && (IsOpen(realm) ==> VerifiesAddresses(realm))
    case _ => true
  }

  ghost predicate Lawful(log: seq<Event>)
    decreases |log|, 1
  {
    log == [] || LastLawful(log)
  }

  ghost predicate LastLawful(log: seq<Event>)
    requires log != []
    decreases |log|, 0
  {
    Lawful(log[..|log| - 1]) && Permitted(log[..|log| - 1], log[|log| - 1])
  }

  lemma Extend(initial: Realm, log: seq<Event>, e: Event)
    requires Lawful(log) && Permitted(log, e)
    ensures Lawful(log + [e])
    ensures RealmAfter(initial, log + [e]) == if e.RealmPut? then e.realm else RealmAfter(initial, log)
    ensures var p := Current(log);
            Current(log + [e]) == match e
              case RunStarted(mode) => Progress(Some(mode), false, false, false)
              case RealmPut(_) => p.(wrote := true)
              case SmtpVerified => p.(smtp := true)
              case SwitchConfirmed => p.(confirmed := true)
  {
    assert (log + [e])[..|log|] == log;
    assert LastLawful(log + [e]);
  }

  // ---------------------------------------------------------------- fail closed

  /**
    Once the first update of a run has taken effect, registration is open, at whatever point of the run,
    only if the run is in open mode, the mail check passed and the switch was read back.
   */
  lemma {:induction false} OpenOnlyWhenReady(initial: Realm, log: seq<Event>)
    requires Lawful(log) && Current(log).wrote && IsOpen(RealmAfter(initial, log))
    ensures Current(log).mode == Some(OpenEmail) && Current(log).smtp && Current(log).confirmed
    ensures VerifiesAddresses(RealmAfter(initial, log))
  {
    assert LastLawful(log);
    var n := |log| - 1;
    if log[n].RealmPut? {
      assert n > 0;
    } else {
      OpenOnlyWhenReady(initial, log[..n]);
    }
  }

  /** The first update of the realm after index s, which leaves registration closed. */
  predicate FirstUpdate(log: seq<Event>, s: nat, w: nat) {
    && s < w < |log| && log[w].RealmPut? && !IsOpen(log[w].realm)
    && forall t :: s < t < w ==> !log[t].RealmPut?
  }

  /** What the current run did has a place in the log after the start of that run; its first update closed the realm. */
  lemma {:induction false} RunSoFar(log: seq<Event>) returns (s: nat)
    requires Lawful(log) && Current(log).mode.Some?
    ensures s < |log| && log[s] == RunStarted(Current(log).mode.value)
    ensures forall t :: s < t < |log| ==> !log[t].RunStarted?
    ensures Current(log).smtp ==> exists p :: s < p < |log| && log[p] == SmtpVerified
    ensures if Current(log).wrote then exists w :: FirstUpdate(log, s, w)
            else forall t :: s < t < |log| ==> !log[t].RealmPut?
  {
    assert LastLawful(log);
    var n := |log| - 1;
    if log[n].RunStarted? {
      s := n;
    } else {
      s := RunSoFar(log[..n]);
      if Current(log[..n]).smtp {
        var p :| s < p < n && log[..n][p] == SmtpVerified;
        assert log[p] == SmtpVerified;
      }
      if Current(log[..n]).wrote {
        var w :| FirstUpdate(log[..n], s, w);
        assert FirstUpdate(log, s, w);
      } else if log[n].RealmPut? {
        assert FirstUpdate(log, s, n);
      }
    }
  }

  /**
    Over all runs: whenever registration is open and some update took effect, the realm is the one that
    was put last, by a run in open mode that had closed registration with its first update, checked the mail
    settings and, just before, read the switch back.
   */
  lemma {:induction false} OpenedByACompleteRun(initial: Realm, log: seq<Event>, i: nat)
    returns (s: nat, p: nat, w: nat, j: nat)
    requires Lawful(log) && i < |log| && log[i].RealmPut? && IsOpen(RealmAfter(initial, log))
    ensures s < p < j - 1 && s < w < j - 1 && i <= j < |log|
    ensures log[s] == RunStarted(OpenEmail) && log[p] == SmtpVerified
    ensures FirstUpdate(log, s, w)
    ensures log[j - 1] == SwitchConfirmed && log[j] == RealmPut(RealmAfter(initial, log))
    ensures VerifiesAddresses(RealmAfter(initial, log))
    ensures forall t :: s < t <= j ==> !log[t].RunStarted?
    ensures forall t :: j < t < |log| ==> !log[t].RealmPut?
  {
    assert LastLawful(log);
    var n := |log| - 1;
    var before := log[..n];
    if log[n].RealmPut? {
      j := n;
      s := RunSoFar(before);
      p :| s < p < n && before[p] == SmtpVerified;
      w :| FirstUpdate(before, s, w);
      assert before[n - 1] == SwitchConfirmed;
    } else {
      s, p, w, j := OpenedByACompleteRun(initial, before, i);
    }
  }

  // ---------------------------------------------------------------- the remote side

  /** One step of the registration flow. */
  datatype Execution = Execution(id: string, setsPassword: bool, required: bool, config: Option<string>)

  datatype Config = Config(alias: Option<string>, values: map<string, string>)

  const SWITCH := "always_set_password_on_register_form"
  const SWITCH_ALIAS := "agent-room-password-on-register-form"

  function PasswordSteps(executions: seq<Execution>): seq<Execution> {
    if executions == [] then []
    else (if executions[0].setsPassword then [executions[0]] else []) + PasswordSteps(executions[1..])
  }

  /** `registration_password_execution`: the only password step, if it is required and has an id. */
  function PasswordStep(executions: seq<Execution>): Option<Execution> {
    var steps := PasswordSteps(executions);
    if |steps| == 1 && steps[0].required && steps[0].id != "" then Some(steps[0]) else None
  }

  /** `password_on_register_form`. */
  function WithSwitch(config: Config): (r: Config)
    ensures r.alias.Some? && SWITCH in r.values && r.values[SWITCH] == "true"
    ensures forall key :: key != SWITCH ==> (key in r.values <==> key in config.values)
    ensures forall key :: key != SWITCH && key in config.values ==> r.values[key] == config.values[key]
  {
    Config(if config.alias.Some? then config.alias else Some(SWITCH_ALIAS), config.values[SWITCH := "true"])
  }

  /** The password step is configured to ask for the password on the form. */
  predicate SwitchOn(executions: seq<Execution>, configs: map<string, Config>) {
    var step := PasswordStep(executions);
    && step.Some? && step.value.config.Some? && step.value.config.value != "" && step.value.config.value in configs
    && SWITCH in configs[step.value.config.value].values
    && configs[step.value.config.value].values[SWITCH] == "true"
  }

  /** Place k is the only step that sets the password; it is required, has an id, and asks on the form. */
  predicate AsksAt(executions: seq<Execution>, configs: map<string, Config>, k: nat) {
    && k < |executions| && (forall j :: 0 <= j < |executions| ==> (executions[j].setsPassword <==> j == k))
    && executions[k].required && executions[k].id != ""
    && executions[k].config.Some? && executions[k].config.value != "" && executions[k].config.value in configs
    && SWITCH in configs[executions[k].config.value].values
    && configs[executions[k].config.value].values[SWITCH] == "true"
  }

  lemma {:induction false} NoPasswordSteps(executions: seq<Execution>)
    ensures PasswordSteps(executions) == [] <==> forall j :: 0 <= j < |executions| ==> !executions[j].setsPassword
  {
    if executions != [] {
      NoPasswordSteps(executions[1..]);
      assert forall j :: 1 <= j < |executions| ==> executions[j] == executions[1..][j - 1];
    }
  }

  lemma {:induction false} OnePasswordStep(executions: seq<Execution>) returns (k: nat)
    requires |PasswordSteps(executions)| == 1
    ensures k < |executions| && PasswordSteps(executions)[0] == executions[k]
    ensures forall j :: 0 <= j < |executions| ==> (executions[j].setsPassword <==> j == k)
  {
    var rest := executions[1..];
    if executions[0].setsPassword {
      k := 0;
      NoPasswordSteps(rest);
      assert forall j :: 1 <= j < |executions| ==> executions[j] == rest[j - 1];
    } else {
      k := OnePasswordStep(rest);
      assert forall j :: 1 <= j < |executions| ==> executions[j] == rest[j - 1];
      k := k + 1;
    }
  }

  /** The password step that is believed asks for the password. */
  lemma SwitchOnAsks(executions: seq<Execution>, configs: map<string, Config>) returns (k: nat)
    requires SwitchOn(executions, configs)
    ensures AsksAt(executions, configs, k)
  {
    k := OnePasswordStep(executions);
  }

  class Keycloak {
    ghost const initial: Realm
    var realm: Realm
    var executions: seq<Execution>
    var configs: map<string, Config>
    ghost var log: seq<Event>

    ghost predicate Valid()
      reads this
    {
      Lawful(log) && realm == RealmAfter(initial, log)
    }

    constructor (realm: Realm)
      ensures Valid() && log == [] && initial == this.realm == realm
    {
      initial, this.realm, executions, configs := realm, realm, [], map[];
      log := [];
    }

    /** Others may change the registration flow; only the reconciler writes the realm. */
    method OthersAct()
      modifies `executions, `configs
    {
      executions, configs := *, *;
    }

    /** A request or check whose effect is not modelled. */
    method Check() returns (o: Outcome)
    {
      if * {
        return Stopped;
      }
      return Done;
    }

    ghost method Note(e: Event)
      requires Valid() && Permitted(log, e) && !e.RealmPut?
      requires e.SwitchConfirmed? ==> SwitchOn(executions, configs)
      modifies `log
      ensures Valid() && log == old(log) + [e]
    {
      Extend(initial, log, e);
      log := log + [e];
    }

    method PutRealm(r: Realm) returns (o: Outcome)
      requires Valid() && Permitted(log, RealmPut(r))
      modifies `realm, `log
      ensures Valid() && (log == old(log) || log == old(log) + [RealmPut(r)])
      ensures o.Done? ==> log == old(log) + [RealmPut(r)]
    {
      if * {
        return Stopped;
      }
      Extend(initial, log, RealmPut(r));
      realm := r;
      log := log + [RealmPut(r)];
      if * {
        return Stopped;
      }
      return Done;
    }

    /** Replaces a configuration, which must leave everything but the switch as it is. */
    method PutConfig(id: string, config: Config) returns (o: Outcome)
      requires id in configs && config.values == configs[id].values[SWITCH := "true"]
      requires config.alias.Some? && (configs[id].alias.Some? ==> config.alias == configs[id].alias)
      modifies `configs
      ensures o.Done? ==> configs == old(configs)[id := config]
    {
      if * {
        return Stopped;
      }
      configs := configs[id := config];
      if * {
        return Stopped;
      }
      return Done;
    }

    /** Creates a configuration for a step; the server chooses its id. */
    method PostConfig(step: string, config: Config) returns (o: Outcome)
      requires config.alias.Some? && config.values == map[SWITCH := "true"]
      modifies `configs, `executions
    {
      if * {
        return Stopped;
      }
      var id: string := *;
      configs := configs[id := config];
      var steps := executions;
      executions := seq(|steps|, k requires 0 <= k < |steps| =>
        if steps[k].id == step then steps[k].(config := Some(id)) else steps[k]);
      if * {
        return Stopped;
      }
      return Done;
    }
  }

  // ---------------------------------------------------------------- the reconciler

  /** `reconcile_registration_password`: sets the switch and believes it only after reading it back. */
  method ReconcileRegistrationPassword(kc: Keycloak) returns (o: Outcome)
    requires kc.Valid()
    modifies kc`executions, kc`configs, kc`log
    ensures kc.Valid() && (kc.log == old(kc.log) || kc.log == old(kc.log) + [SwitchConfirmed])
    ensures o.Done? ==> kc.log == old(kc.log) + [SwitchConfirmed] && SwitchOn(kc.executions, kc.configs)
    ensures o.Done? ==> exists k: nat :: AsksAt(kc.executions, kc.configs, k)
  {
    var known := kc.Check();  // the server still knows the switch
    :- known;
    kc.OthersAct();
    :- kc.Check();
    var step := PasswordStep(kc.executions);
    if step.None? {
      return Stopped;
    }
    if step.value.config.Some? && step.value.config.value != "" {
      var id := step.value.config.value;
      if id !in kc.configs {
        return Stopped;
      }
      var updated := WithSwitch(kc.configs[id]);
      if updated != kc.configs[id] {
        :- kc.PutConfig(id, updated);
      }
    } else {
      :- kc.PostConfig(step.value.id, WithSwitch(Config(None, map[])));
    }
    kc.OthersAct();
    :- kc.Check();
    var again := PasswordStep(kc.executions);
    if again.None? || again.value.config.None? || again.value.config.value == ""
       || again.value.config.value !in kc.configs {
      return Stopped;
    }
    var values := kc.configs[again.value.config.value].values;
    if SWITCH !in values || values[SWITCH] != "true" {
      return Stopped;
    }
    kc.Note(SwitchConfirmed);
    ghost var k := SwitchOnAsks(kc.executions, kc.configs);
    return Done;
  }

  /** The first part of `reconcile`, common to both modes: closes registration before anything else. */
  method CloseAndConfigure(kc: Keycloak, mode: Mode) returns (o: Outcome, closed: Realm, origin: string)
    requires kc.Valid()
    modifies kc`realm, kc`log
    ensures kc.Valid() && old(kc.log) <= kc.log
    ensures o.Done? ==> kc.realm == closed == ClosedWithUrl(old(kc.realm), origin)
    ensures o.Done? ==> Current(kc.log) == Progress(Some(mode), true, false, false)
  {
    origin := *;
    closed := Closed(kc.realm);
    ClosedPolicy(kc.realm, origin);
    kc.Note(RunStarted(mode));
    o := kc.Check();
    if o.Done? {
      o := kc.PutRealm(closed);
    }
    if o.Done? {
      o := kc.Check();  // user profile, redirect and frontend addresses
    }
    if o.Done? {
      closed := WithAppUrl(closed, origin);
      o := kc.PutRealm(closed);
    }
    if o.Done? {
      o := kc.Check();  // web client and account-deletion client
    }
  }

  /** The last update of a run in open mode. */
  method OpenRealm(kc: Keycloak, closed: Realm, smtp: Json) returns (o: Outcome)
    requires kc.Valid() && Current(kc.log).wrote && Current(kc.log).mode == Some(OpenEmail) && Current(kc.log).smtp
    requires kc.log[|kc.log| - 1] == SwitchConfirmed
    modifies kc`realm, kc`log
    ensures kc.Valid() && old(kc.log) <= kc.log
    ensures o.Done? ==> kc.realm == WithRegistration(closed, true, Some(smtp))
    ensures o.Done? ==> Registered(closed, kc.realm, true, Some(smtp))
  {
    RegistrationUpdate(closed, true, Some(smtp));
    o := kc.PutRealm(WithRegistration(closed, true, Some(smtp)));
  }

  /** The second part of `reconcile`, in open mode only. */
  method CheckAndOpen(kc: Keycloak, closed: Realm) returns (o: Outcome, smtp: Json)
    requires kc.Valid() && Current(kc.log).wrote && Current(kc.log).mode == Some(OpenEmail)
    modifies kc
    ensures kc.Valid() && old(kc.log) <= kc.log
    ensures o.Done? ==> kc.realm == WithRegistration(closed, true, Some(smtp))
    ensures o.Done? ==> Registered(closed, kc.realm, true, Some(smtp))
  {
    smtp := *;
    o := kc.Check();  // mail transport
    if o.Done? {
      kc.Note(SmtpVerified);
      o := ReconcileRegistrationPassword(kc);
    }
    if o.Done? {
      o := OpenRealm(kc, closed, smtp);
    }
  }

  /** `reconcile`: close, configure, and, in open mode only, check and open. */
  method Reconcile(kc: Keycloak, mode: Mode) returns (o: Outcome, origin: string, smtp: Json)
    requires kc.Valid()
    modifies kc
    ensures kc.Valid() && old(kc.log) <= kc.log
    ensures o.Done? && mode == ClosedMode ==> kc.realm == ClosedWithUrl(old(kc.realm), origin)
    ensures o.Done? && mode == OpenEmail ==>
              kc.realm == WithRegistration(ClosedWithUrl(old(kc.realm), origin), true, Some(smtp))
    ensures o.Done? ==> (IsOpen(kc.realm) <==> mode == OpenEmail)
    ensures o.Done? ==>
              Configured(old(kc.realm), kc.realm, PasswordPolicy.PasswordPolicy(PolicyText(old(kc.realm))), origin,
                         if mode == OpenEmail then Some(smtp) else None)
  {
    smtp := JNull;
    var closed;
    o, closed, origin := CloseAndConfigure(kc, mode);
    ClosedPolicy(old(kc.realm), origin);
    ClosedIsConfigured(old(kc.realm), origin);
    if o.Done? && mode == OpenEmail {
      o, smtp := CheckAndOpen(kc, closed);
      RegistrationKeepsPolicy(closed, true, Some(smtp));
      if o.Done? {
        OpenIsConfigured(old(kc.realm), closed, kc.realm,
                         PasswordPolicy.PasswordPolicy(PolicyText(old(kc.realm))), origin, smtp);
      }
    }
  }

  /** Any number of runs in any modes, each ending wherever it ends. */
  method Operate(kc: Keycloak, modes: seq<Mode>)
    requires kc.Valid()
    modifies kc
    ensures kc.Valid() && old(kc.log) <= kc.log
  {
    for k := 0 to |modes|
      invariant kc.Valid() && old(kc.log) <= kc.log
    {
      var o, origin, smtp := Reconcile(kc, modes[k]);
    }
  }
}
