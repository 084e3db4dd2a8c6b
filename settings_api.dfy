/**
 * app/api/settings/route.ts: `GET` filters the settings, `POST` adds one
 * under a fresh key, `PUT` updates a list of them inside one transaction.
 * The settings table is a map keyed by `key`.
 */
module SettingsApi {
  import opened Opt
  import opened Http
  import Session

  datatype Setting = Setting(key: string, value: string, kind: string, description: Option<string>, isPublic: bool)

  datatype SettingsReply = Failure(error: string) | Created(setting: Setting) | Updated(settings: seq<Setting>)

  /** `GET`: the `where` built from `isPublic` and `type`. */
  datatype SettingsWhere = SettingsWhere(isPublic: Option<bool>, kind: Option<string>)

  function WhereOf(isPublic: Option<string>, kind: Option<string>): SettingsWhere {
    SettingsWhere(if isPublic.Some? then Some(isPublic.value == "true") else None,
                  if Falsy(kind) then None else kind)
  }

  /** The field assignments of `GET` one after another. */
  method BuildWhere(isPublic: Option<string>, kind: Option<string>) returns (w: SettingsWhere)
    ensures w == WhereOf(isPublic, kind)
  {
    w := SettingsWhere(None, None);
    if isPublic.Some? {
      w := w.(isPublic := Some(isPublic.value == "true"));
    }
    if !Falsy(kind) {
      w := w.(kind := kind);
    }
  }

  predicate Matches(w: SettingsWhere, s: Setting) {
    (w.isPublic.Some? ==> s.isPublic == w.isPublic.value) && (w.kind.Some? ==> s.kind == w.kind.value)
  }

  /** The keys `GET` returns. */
  function Select(settings: map<string, Setting>, w: SettingsWhere): (keys: set<string>)
    ensures keys <= settings.Keys
    ensures forall k :: k in settings ==> (k in keys <==> Matches(w, settings[k]))
  {
    set k | k in settings && Matches(w, settings[k])
  }

  /** `?isPublic=yes` asks for the private settings: any value but `true` means `false`. */
  lemma PublicFlagIsExactlyTrue(settings: map<string, Setting>, key: string)
    requires key in settings && !settings[key].isPublic
    ensures key in Select(settings, WhereOf(Some("yes"), None))
    ensures key !in Select(settings, WhereOf(Some("true"), None))
    ensures key in Select(settings, WhereOf(None, Some("")))
  {
  }

  /** `POST` body; `value` is a string in this model. */
  datatype SettingBody =
    | Malformed
    | SettingBody(key: Option<string>, value: Option<string>, kind: Option<string>, description: Option<string>,
                  isPublic: Option<bool>)

  ghost predicate KeyedByKey(settings: map<string, Setting>) {
    forall k :: k in settings ==> settings[k].key == k
  }

  /** `POST /api/settings`: the reply and the table afterwards. The session is checked before the body is read. */
  function Create(session: Option<Session.SessionData>, body: SettingBody, settings: map<string, Setting>)
    : (r: (Reply<SettingsReply>, map<string, Setting>))
    ensures session.None? ==> r == (Json(401, Failure("Unauthorized")), settings)
    ensures session.Some? && body.Malformed? ==> r == (Json(500, Failure("Failed to create setting")), settings)
    ensures session.Some? && body.SettingBody? && (Falsy(body.key) || Falsy(body.value) || Falsy(body.kind)) ==>
      r == (Json(400, Failure("Key, value, and type are required")), settings)
    ensures session.Some? && body.SettingBody? && !(Falsy(body.key) || Falsy(body.value) || Falsy(body.kind)) ==>
      if body.key.value in settings then r == (Json(400, Failure("Setting with this key already exists")), settings)
      else
        var s := Setting(body.key.value, body.value.value, body.kind.value, body.description, body.isPublic.GetOr(false));
        r == (Json(200, Created(s)), settings[body.key.value := s])
  {
    if session.None? then (Json(401, Failure("Unauthorized")), settings)
    else match body
      case Malformed => (Json(500, Failure("Failed to create setting")), settings)
      case SettingBody(key, value, kind, description, isPublic) =>
        if Falsy(key) || Falsy(value) || Falsy(kind) then (Json(400, Failure("Key, value, and type are required")), settings)
        else if key.value in settings then (Json(400, Failure("Setting with this key already exists")), settings)
        else
          var s := Setting(key.value, value.value, kind.value, description, isPublic.GetOr(false));
          (Json(200, Created(s)), settings[key.value := s])
  }

  /** Creation keeps keys unique, never alters an existing setting, and makes new ones private unless asked. */
  lemma CreateKeepsKeysUnique(session: Option<Session.SessionData>, body: SettingBody, settings: map<string, Setting>)
    requires KeyedByKey(settings)
    ensures var (reply, settings') := Create(session, body, settings);
      KeyedByKey(settings') &&
      (forall k :: k in settings ==> k in settings' && settings'[k] == settings[k]) &&
      (reply.status != 200 ==> settings' == settings) &&
      (reply.status == 200 && body.isPublic.None? ==> !reply.body.setting.isPublic)
  {
  }

  /** An empty-string value is refused like a missing one. */
  lemma EmptyValueRefused(session: Session.SessionData, key: string, kind: string, settings: map<string, Setting>)
    ensures Create(Some(session), SettingBody(Some(key), Some(""), Some(kind), None, None), settings).0.status == 400
  {
  }

  /** One entry of the `PUT` list; a missing field is left as it was. */
  datatype SettingUpdate = SettingUpdate(key: string, value: Option<string>, kind: Option<string>,
                                         description: Option<string>, isPublic: Option<bool>)

  datatype PutBody = PutMalformed | NotAnArray | Updates(updates: seq<SettingUpdate>)

  function Apply(s: Setting, u: SettingUpdate): (s': Setting)
    ensures s'.key == s.key
  {
    Setting(s.key, u.value.GetOr(s.value), u.kind.GetOr(s.kind),
            if u.description.Some? then u.description else s.description, u.isPublic.GetOr(s.isPublic))
  }

  predicate AllKnown(settings: map<string, Setting>, updates: seq<SettingUpdate>) {
    forall i :: 0 <= i < |updates| ==> updates[i].key in settings
  }

  /** The updates applied in order; each `update` returns the row as it then is. */
  function ApplyAll(settings: map<string, Setting>, updates: seq<SettingUpdate>): (r: (map<string, Setting>, seq<Setting>))
    requires AllKnown(settings, updates)
    ensures r.0.Keys == settings.Keys
    ensures |r.1| == |updates|
    ensures forall k :: k in settings && (forall i :: 0 <= i < |updates| ==> updates[i].key != k) ==> r.0[k] == settings[k]
    decreases |updates|
  {
    if |updates| == 0 then (settings, [])
    else
      var init := updates[..|updates| - 1];
      var u := updates[|updates| - 1];
      assert AllKnown(settings, init);
      var (before, rows) := ApplyAll(settings, init);
      var row := Apply(before[u.key], u);
      (before[u.key := row], rows + [row])
  }

  /**
   * `PUT /api/settings`. An update of a key that does not exist throws
   * inside the transaction, so nothing is written and the reply is 500.
   */
  function Put(session: Option<Session.SessionData>, body: PutBody, settings: map<string, Setting>)
    : (r: (Reply<SettingsReply>, map<string, Setting>))
    ensures session.None? ==> r == (Json(401, Failure("Unauthorized")), settings)
    ensures session.Some? && body.PutMalformed? ==> r == (Json(500, Failure("Failed to update settings")), settings)
    ensures session.Some? && body.NotAnArray? ==> r == (Json(400, Failure("Settings array is required")), settings)
    ensures session.Some? && body.Updates? && !AllKnown(settings, body.updates) ==>
      r == (Json(500, Failure("Failed to update settings")), settings)
    ensures session.Some? && body.Updates? && AllKnown(settings, body.updates) ==>
      r == (Json(200, Updated(ApplyAll(settings, body.updates).1)), ApplyAll(settings, body.updates).0)
  {
    if session.None? then (Json(401, Failure("Unauthorized")), settings)
    else match body
      case PutMalformed => (Json(500, Failure("Failed to update settings")), settings)
      case NotAnArray => (Json(400, Failure("Settings array is required")), settings)
      case Updates(updates) =>
        if !AllKnown(settings, updates) then (Json(500, Failure("Failed to update settings")), settings)
        else
          var (settings', rows) := ApplyAll(settings, updates);
          (Json(200, Updated(rows)), settings')
  }

  /** `PUT` is all or nothing: it fails without a trace, or every listed key is updated and no key appears or vanishes. */
  lemma PutIsAllOrNothing(session: Option<Session.SessionData>, body: PutBody, settings: map<string, Setting>)
    requires KeyedByKey(settings)
    ensures var (reply, settings') := Put(session, body, settings);
      (reply.status != 200 ==> settings' == settings) &&
      (reply.status == 200 ==> settings'.Keys == settings.Keys && KeyedByKey(settings'))
  {
    var (reply, settings') := Put(session, body, settings);
    if reply.status == 200 {
      ApplyAllKeepsKeying(settings, body.updates);
    }
  }

  lemma {:induction false} ApplyAllKeepsKeying(settings: map<string, Setting>, updates: seq<SettingUpdate>)
    requires KeyedByKey(settings) && AllKnown(settings, updates)
    ensures KeyedByKey(ApplyAll(settings, updates).0)
    decreases |updates|
  {
    if |updates| > 0 {
      var init := updates[..|updates| - 1];
      assert AllKnown(settings, init);
      ApplyAllKeepsKeying(settings, init);
    }
  }

  /** The last update in the list that names a field decides it: a later value for the same key wins. */
  lemma {:induction false} LastValueWins(settings: map<string, Setting>, updates: seq<SettingUpdate>)
    requires |updates| > 0 && AllKnown(settings, updates)
    requires updates[|updates| - 1].value.Some?
    ensures ApplyAll(settings, updates).0[updates[|updates| - 1].key].value == updates[|updates| - 1].value.value
  {
  }

  /** Keys the list does not name keep their rows. */
  lemma UnlistedUntouched(session: Session.SessionData, updates: seq<SettingUpdate>, settings: map<string, Setting>, k: string)
    requires AllKnown(settings, updates) && k in settings
    requires forall i :: 0 <= i < |updates| ==> updates[i].key != k
    ensures k in Put(Some(session), Updates(updates), settings).1
    ensures Put(Some(session), Updates(updates), settings).1[k] == settings[k]
  {
  }
}
