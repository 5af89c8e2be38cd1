/** The maintenance gate: API requests get a 503 while the platform's maintenance mode is on,
    except the platform-settings endpoints; the mode is read once per middleware instance. */
module Maintenance {
  import opened Text

  /** What the middleware does with a request: hand it on to the view, or answer with the
      maintenance body. */
  datatype Response =
    | PassedOn
    | Unavailable(status: nat, maintenance: bool, error: string, message: string)

  /** The 503 answer of `__call__`. */
  const MaintenanceResponse := Unavailable(503, true, "SERVICE_UNAVAILABLE", "System is currently under maintenance.")

  const ApiPrefix := "/api/"
  const PlatformSettingsPrefix := "/api/ad/settings/platform/"

  /** Every platform-settings path is an API path. */
  lemma PlatformSettingsIsApi(path: string)
    requires StartsWith(path, PlatformSettingsPrefix)
    ensures StartsWith(path, ApiPrefix)
  {
    assert path[..|ApiPrefix|] == path[..|PlatformSettingsPrefix|][..|ApiPrefix|];
  }

  /** `MaintenanceMiddleware`; `cache` is `_maintenance_mode`, with `None` for "not read yet". */
  class MaintenanceMiddleware {
    var cache: Option<bool>

    constructor()
      ensures cache == None
    {
      cache := None;
    }

    /** `_check_maintenance_mode`. `stored` is what reading `PlatformSettings.get_settings()`
        yields: the stored `maintenance_mode`, or `None` when the read raises. A cached
        answer is returned without reading; a failed read answers false and caches nothing. */
    method CheckMaintenanceMode(stored: Option<bool>) returns (on: bool)
      modifies this
      ensures old(cache).Some? ==> on == old(cache).value && cache == old(cache)
      ensures old(cache).None? && stored.Some? ==> on == stored.value && cache == stored
      ensures old(cache).None? && stored.None? ==> !on && cache == None
    {
      if cache.None? {
        if stored.None? {
          return false;
        }
        cache := stored;
      }
      on := cache.value;
    }

    /** `__call__`: paths outside `/api/` and the platform-settings paths are handed on
        without consulting the mode; any other API path gets the 503 when the mode is on. */
    method Call(path: string, stored: Option<bool>) returns (r: Response)
      modifies this
      ensures !StartsWith(path, ApiPrefix) ==> r == PassedOn && cache == old(cache)
      ensures StartsWith(path, PlatformSettingsPrefix) ==> r == PassedOn && cache == old(cache)
      ensures (StartsWith(path, ApiPrefix) && !StartsWith(path, PlatformSettingsPrefix)) ==> (
        (old(cache).Some? ==> cache == old(cache) && (r == MaintenanceResponse <==> old(cache).value))
        && (old(cache).None? ==> cache == stored && (r == MaintenanceResponse <==> stored == Some(true))))
      ensures r == PassedOn || r == MaintenanceResponse
    {
      if StartsWith(path, ApiPrefix) {
        if StartsWith(path, PlatformSettingsPrefix) {
          return PassedOn;
        }
        var on := CheckMaintenanceMode(stored);
        if on {
          return MaintenanceResponse;
        }
      }
      return PassedOn;
    }
  }

  /** Once an API request has read the mode, a later change of the stored setting is not seen:
      the same instance answers a second API request as it answered the first. */
  method StaleAfterFirstRead(m: MaintenanceMiddleware, path: string, first: bool, second: Option<bool>)
    returns (r1: Response, r2: Response)
    requires m.cache == None
    requires StartsWith(path, ApiPrefix) && !StartsWith(path, PlatformSettingsPrefix)
    modifies m
    ensures r1 == r2
    ensures r1 == MaintenanceResponse <==> first
  {
    r1 := m.Call(path, Some(first));
    r2 := m.Call(path, second);
  }

  /** A failed read is retried: after it, the next request reads the setting again. */
  method RetryAfterFailedRead(m: MaintenanceMiddleware, path: string, later: bool)
    returns (r1: Response, r2: Response)
    requires m.cache == None
    requires StartsWith(path, ApiPrefix) && !StartsWith(path, PlatformSettingsPrefix)
    modifies m
    ensures r1 == PassedOn
    ensures r2 == MaintenanceResponse <==> later
  {
    r1 := m.Call(path, None);
    r2 := m.Call(path, Some(later));
  }
}
