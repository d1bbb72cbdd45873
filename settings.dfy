/*
 * The application's settings object (powerpages/settings.py): a setting
 * is read from the project's `POWER_PAGES` dictionary, or else from the
 * defaults, loaded lazily and cached per name; a change of `POWER_PAGES`
 * replaces the dictionary and empties the cache.
 */
module AppSettings {
  import opened Outcomes

  /** A setting's value. */
  datatype SettingValue = IntValue(i: int) | NoneValue | TupleValue(items: seq<string>) | TextValue(s: string)

  /** The only error: reading a name that has no default. */
  datatype SettingsError = AttributeError(attr: string)

  /** `DEFAULTS` */
  const Defaults: map<string, SettingValue> := map[
    "CACHE_SECONDS" := IntValue(60 * 60),
    "SYNC_DIRECTORY" := NoneValue,
    "TAG_LIBRARIES" := TupleValue([]),
    "SITEMAP_PROTOCOL" := NoneValue,
    "SITEMAP_DOMAIN" := NoneValue,
    "SITEMAP_DEFAULT_CHANGEFREQ" := NoneValue,
    "SITEMAP_DEFAULT_PRIORITY" := NoneValue
  ]

  /** The value of a known setting: the user's, else the default. */
  function Resolved(user: map<string, SettingValue>, defaults: map<string, SettingValue>, attr: string): (v: SettingValue)
    requires attr in defaults
    ensures attr in user ==> v == user[attr]
    ensures attr !in user ==> v == defaults[attr]
  {
    if attr in user then user[attr] else defaults[attr]
  }

  /** The value of a setting in a fresh settings object, or its error. */
  function Lookup(user: map<string, SettingValue>, defaults: map<string, SettingValue>, attr: string): (r: Result<SettingValue, SettingsError>)
    ensures r.Err? <==> attr !in defaults
    ensures r.Err? ==> r.error == AttributeError(attr)
    ensures r.Ok? ==> r.value == Resolved(user, defaults, attr)
  {
    if attr !in defaults then Err(AttributeError(attr)) else Ok(Resolved(user, defaults, attr))
  }

  /** With no project settings, every known setting reads as its default. */
  lemma DefaultsWithoutUserSettings(attr: string)
    ensures attr in Defaults ==> Lookup(map[], Defaults, attr) == Ok(Defaults[attr])
    ensures Lookup(map[], Defaults, "CACHE_SECONDS") == Ok(IntValue(3600))
  {
  }

  /** The settings object. */
  class Settings {
    var userSettings: Option<map<string, SettingValue>>   // None until first needed
    const defaults: map<string, SettingValue>
    var cache: map<string, SettingValue>

    /**
     * The cache only holds known settings, is only filled once the user
     * settings are loaded, and agrees with them.
     */
    predicate Valid()
      reads this
    {
      && cache.Keys <= defaults.Keys
      && (cache != map[] ==> userSettings.Some?)
      && (userSettings.Some? ==> forall a :: a in cache ==> cache[a] == Resolved(userSettings.value, defaults, a))
    }

    /** `AppSettings(user_settings, defaults)`: an empty or missing defaults table means `DEFAULTS`. */
    constructor(userSettings: Option<map<string, SettingValue>>, defaults: map<string, SettingValue>)
      ensures this.userSettings == userSettings
      ensures this.defaults == (if defaults == map[] then Defaults else defaults)
      ensures cache == map[]
      ensures Valid()
    {
      this.userSettings := userSettings;
      this.defaults := if defaults == map[] then Defaults else defaults;
      cache := map[];
    }

    /**
     * `__getattr__`: an unknown name is an error; a cached name is answered
     * from the cache; otherwise the user settings are loaded if they are
     * not yet (`powerPages` is the project's `POWER_PAGES`, None when it is
     * not set), and the resolved value is cached.
     */
    method Get(attr: string, powerPages: Option<map<string, SettingValue>>) returns (r: Result<SettingValue, SettingsError>)
      requires Valid()
      modifies this
      ensures Valid()
      ensures attr !in defaults ==> r == Err(AttributeError(attr)) && userSettings == old(userSettings) && cache == old(cache)
      ensures attr in old(cache) ==> r == Ok(old(cache)[attr]) && userSettings == old(userSettings) && cache == old(cache)
      ensures attr in defaults && attr !in old(cache) ==>
        r.Ok? && userSettings == Some(old(userSettings).GetOr(powerPages.GetOr(map[]))) && cache == old(cache)[attr := r.value]
      ensures userSettings.Some? ==> r == Lookup(userSettings.value, defaults, attr)
    {
      if attr !in defaults {
        return Err(AttributeError(attr));
      }
      if attr in cache {
        return Ok(cache[attr]);
      }
      if userSettings.None? {
        userSettings := Some(powerPages.GetOr(map[]));
      }
      var value := if attr in userSettings.value then userSettings.value[attr] else defaults[attr];
      cache := cache[attr := value];
      r := Ok(value);
    }

    /**
     * `reload_app_settings`: only a change of `POWER_PAGES` replaces the
     * user settings and empties the cache; a removed setting arrives as
     * None, so the next `Get` loads the user settings again.
     */
    method Reload(setting: string, value: Option<map<string, SettingValue>>)
      requires Valid()
      modifies this
      ensures Valid()
      ensures setting == "POWER_PAGES" ==> userSettings == value && cache == map[]
      ensures setting != "POWER_PAGES" ==> userSettings == old(userSettings) && cache == old(cache)
    {
      if setting == "POWER_PAGES" {
        userSettings := value;
        cache := map[];
      }
    }
  }
}
