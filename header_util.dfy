/**
 * Alert headers: every change made through the REST resource is announced
 * to the web client by a pair of headers, a translation key naming the entity
 * and the change, and a parameter (the entity's id).
 */
module HeaderUtil {
  import opened Wrappers
  import opened Http

  const ALERT_HEADER: string := "X-jhipstertestApp-alert"
  const PARAMS_HEADER: string := "X-jhipstertestApp-params"
  /** Every alert key starts with the application name and a dot. */
  const KEY_PREFIX: string := "jhipstertestApp."

  /** The three changes an alert reports, and the key suffix of each. */
  datatype Action = Created | Updated | Deleted {
    function Suffix(): (s: string)
      ensures |s| == 8 && s[0] == '.'
      ensures forall i :: 1 <= i < 8 ==> 'a' <= s[i] <= 'z'
    {
      match this
      case Created => ".created"
      case Updated => ".updated"
      case Deleted => ".deleted"
    }
  }

  /** What a client recovers from an alert header pair. */
  datatype Alert = Alert(entityName: string, action: Action, param: string)

  /** `createAlert`: a fresh header set holding the alert key and its parameter. */
  function CreateAlert(message: string, param: string): (h: Headers)
    ensures |h| == 2 && h[0].0 == ALERT_HEADER && h[1].0 == PARAMS_HEADER
    ensures HeaderValue(h, ALERT_HEADER) == Some(message)
    ensures HeaderValue(h, PARAMS_HEADER) == Some(param)
  {
    [(ALERT_HEADER, message), (PARAMS_HEADER, param)]
  }

  /** `createEntityCreationAlert`. */
  function CreateEntityCreationAlert(entityName: string, param: string): (h: Headers)
    ensures h == CreateAlert("jhipstertestApp." + entityName + ".created", param)
    ensures DecodeAlert(h) == Some(Alert(entityName, Created, param))
  {
    AlertKeyRoundTrip(entityName, Created);
    CreateAlert("jhipstertestApp." + entityName + ".created", param)
  }

  /** `createEntityUpdateAlert`. */
  function CreateEntityUpdateAlert(entityName: string, param: string): (h: Headers)
    ensures h == CreateAlert("jhipstertestApp." + entityName + ".updated", param)
    ensures DecodeAlert(h) == Some(Alert(entityName, Updated, param))
  {
    AlertKeyRoundTrip(entityName, Updated);
    CreateAlert("jhipstertestApp." + entityName + ".updated", param)
  }

  /** `createEntityDeletionAlert`. */
  function CreateEntityDeletionAlert(entityName: string, param: string): (h: Headers)
    ensures h == CreateAlert("jhipstertestApp." + entityName + ".deleted", param)
    ensures DecodeAlert(h) == Some(Alert(entityName, Deleted, param))
  {
    AlertKeyRoundTrip(entityName, Deleted);
    CreateAlert("jhipstertestApp." + entityName + ".deleted", param)
  }

  /** The alert key the three wrappers build for `entityName` and `action`. */
  function AlertKey(entityName: string, action: Action): string {
    KEY_PREFIX + entityName + action.Suffix()
  }

  /** Splits an alert key into the entity name and the change it reports. */
  function ParseAlertKey(key: string): (r: Option<(string, Action)>)
    ensures r.Some? ==> |key| >= |KEY_PREFIX| + 8
  {
    if |key| < |KEY_PREFIX| + 8 || key[..|KEY_PREFIX|] != KEY_PREFIX then None
    else
      var entityName, suffix := key[|KEY_PREFIX|..|key| - 8], key[|key| - 8..];
      if suffix == Created.Suffix() then Some((entityName, Created))
      else if suffix == Updated.Suffix() then Some((entityName, Updated))
      else if suffix == Deleted.Suffix() then Some((entityName, Deleted))
      else None
  }

  /**
   * Reads an alert header pair as the entity name, the change and the
   * parameter: defined exactly when both headers are present and the key has
   * the form the three wrappers build.
   */
  function DecodeAlert(h: Headers): (r: Option<Alert>)
    ensures r.Some? <==> && HeaderValue(h, ALERT_HEADER).Some? && HeaderValue(h, PARAMS_HEADER).Some?
                         && ParseAlertKey(HeaderValue(h, ALERT_HEADER).value).Some?
    ensures r.Some? ==> HeaderValue(h, ALERT_HEADER) == Some(AlertKey(r.value.entityName, r.value.action))
    ensures r.Some? ==> HeaderValue(h, PARAMS_HEADER) == Some(r.value.param)
  {
    match (HeaderValue(h, ALERT_HEADER), HeaderValue(h, PARAMS_HEADER))
    case (Some(key), Some(param)) =>
      (match ParseAlertKey(key)
       case Some((entityName, action)) =>
         ParseAlertKeyExact(key);
         Some(Alert(entityName, action, param))
       case None => None)
    case _ => None
  }

  /** Parsing recovers the entity name and the action from a built key. */
  lemma AlertKeyRoundTrip(entityName: string, action: Action)
    ensures ParseAlertKey(AlertKey(entityName, action)) == Some((entityName, action))
  {
    var key := AlertKey(entityName, action);
    assert key[..|KEY_PREFIX|] == KEY_PREFIX;
    assert key[|KEY_PREFIX|..|key| - 8] == entityName;
    assert key[|key| - 8..] == action.Suffix();
  }

  /** Only built keys parse, and they parse to what built them. */
  lemma ParseAlertKeyExact(key: string)
    requires ParseAlertKey(key).Some?
    ensures AlertKey(ParseAlertKey(key).value.0, ParseAlertKey(key).value.1) == key
  {
    var (entityName, action) := ParseAlertKey(key).value;
    assert key == key[..|KEY_PREFIX|] + key[|KEY_PREFIX|..|key| - 8] + key[|key| - 8..];
  }

  /** An alert key determines the entity name and the action. */
  lemma AlertKeyInjective(e1: string, a1: Action, e2: string, a2: Action)
    requires AlertKey(e1, a1) == AlertKey(e2, a2)
    ensures e1 == e2 && a1 == a2
  {
    AlertKeyRoundTrip(e1, a1);
    AlertKeyRoundTrip(e2, a2);
  }

  /** For one entity the creation, update and deletion keys are pairwise distinct. */
  lemma AlertKeysDistinct(entityName: string)
    ensures AlertKey(entityName, Created) != AlertKey(entityName, Updated)
    ensures AlertKey(entityName, Created) != AlertKey(entityName, Deleted)
    ensures AlertKey(entityName, Updated) != AlertKey(entityName, Deleted)
  {
    AlertKeyRoundTrip(entityName, Created);
    AlertKeyRoundTrip(entityName, Updated);
    AlertKeyRoundTrip(entityName, Deleted);
  }
}
