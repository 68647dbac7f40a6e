/**
 * The web client's notification interceptor: on every response whose alert
 * header is present it shows the alert key as a success message, with the
 * params header (absent params are passed on as null).
 */
module Notification {
  import opened Wrappers
  import opened Http
  import opened HeaderUtil

  /** The key and the parameter the interceptor hands to the alert service, if it fires. */
  function NotifiedAlert(h: Headers): (r: Option<(string, Option<string>)>)
    ensures r.Some? <==> HeaderValue(h, ALERT_HEADER).Some?
    ensures r.Some? ==> HeaderValue(h, ALERT_HEADER) == Some(r.value.0)
    ensures r.Some? ==> r.value.1 == HeaderValue(h, PARAMS_HEADER)
  {
    match HeaderValue(h, ALERT_HEADER)
    case Some(key) => Some((key, HeaderValue(h, PARAMS_HEADER)))
    case None => None
  }

  /**
   * Wherever an alert decodes, the interceptor fires with its key and its
   * parameter: the two readings agree.
   */
  lemma NotifiedAgreesWithDecode(h: Headers)
    requires DecodeAlert(h).Some?
    ensures var a := DecodeAlert(h).value;
            NotifiedAlert(h) == Some((AlertKey(a.entityName, a.action), Some(a.param)))
  {
  }

  /** On the header sets the three wrappers build, the interceptor fires with the key and the parameter. */
  lemma NotifiedOnBuiltAlerts(entityName: string, param: string)
    ensures NotifiedAlert(CreateEntityCreationAlert(entityName, param))
         == Some((AlertKey(entityName, Created), Some(param)))
    ensures NotifiedAlert(CreateEntityUpdateAlert(entityName, param))
         == Some((AlertKey(entityName, Updated), Some(param)))
    ensures NotifiedAlert(CreateEntityDeletionAlert(entityName, param))
         == Some((AlertKey(entityName, Deleted), Some(param)))
  {
    NotifiedAgreesWithDecode(CreateEntityCreationAlert(entityName, param));
    NotifiedAgreesWithDecode(CreateEntityUpdateAlert(entityName, param));
    NotifiedAgreesWithDecode(CreateEntityDeletionAlert(entityName, param));
  }
}
