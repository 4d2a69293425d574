/** `LoadConfig` of config.go: the unmarshalled configuration is checked for
    an e-mail address and a password, its four optional fields get defaults,
    and only then is the JSON error, if any, reported. */
module Config {
  import opened Wrappers

  datatype Config = Config(
    email: string,
    password: string,
    serverUrl: string,
    ossUrl: string,
    enableSnoreToast: bool,
    snoreToastPath: string,
    avatarsDir: string)

  const DefaultSnoreToastPath := "SnoreToast.exe"
  const DefaultServerUrl := "https://server.kahla.app"
  const DefaultOssUrl := "https://oss.aiursoft.com"
  const DefaultAvatarsDir := "avatars"

  datatype ConfigError = EmptyEmail | EmptyPassword | JsonError(cause: Cause) {
    /** The `Error()` text. */
    function Error(): string {
      match this
      case EmptyEmail => "empty email"
      case EmptyPassword => "empty password"
      case JsonError(c) => c.text
    }
  }

  /** The configuration `LoadConfig` hands back, and its error. */
  datatype Loaded = Loaded(config: Config, err: Option<ConfigError>)

  function OrDefault(value: string, default: string): string {
    if value == "" then default else value
  }

  /** Fills every empty optional field with its default. */
  function WithDefaults(c: Config): (d: Config)
    // the identity fields and the switch are never touched
    ensures d.email == c.email && d.password == c.password && d.enableSnoreToast == c.enableSnoreToast
    // every optional field ends up non-empty, and a value that was given is kept
    ensures d.snoreToastPath != "" && d.serverUrl != "" && d.ossUrl != "" && d.avatarsDir != ""
    ensures c.snoreToastPath != "" ==> d.snoreToastPath == c.snoreToastPath
    ensures c.serverUrl != "" ==> d.serverUrl == c.serverUrl
    ensures c.ossUrl != "" ==> d.ossUrl == c.ossUrl
    ensures c.avatarsDir != "" ==> d.avatarsDir == c.avatarsDir
    ensures c.snoreToastPath == "" ==> d.snoreToastPath == DefaultSnoreToastPath
    ensures c.serverUrl == "" ==> d.serverUrl == DefaultServerUrl
    ensures c.ossUrl == "" ==> d.ossUrl == DefaultOssUrl
    ensures c.avatarsDir == "" ==> d.avatarsDir == DefaultAvatarsDir
  {
    c.(snoreToastPath := OrDefault(c.snoreToastPath, DefaultSnoreToastPath),
       serverUrl := OrDefault(c.serverUrl, DefaultServerUrl),
       ossUrl := OrDefault(c.ossUrl, DefaultOssUrl),
       avatarsDir := OrDefault(c.avatarsDir, DefaultAvatarsDir))
  }

  /** `LoadConfig` on what `json.Unmarshal` left in the struct and the error it returned. */
  function LoadConfig(unmarshalled: Config, parseErr: Option<Cause>): (r: Loaded)
    // a missing e-mail is reported first, before any default is filled in
    ensures unmarshalled.email == "" ==> r == Loaded(unmarshalled, Some(EmptyEmail))
    ensures unmarshalled.email != "" && unmarshalled.password == "" ==>
      r == Loaded(unmarshalled, Some(EmptyPassword))
    // past those checks the defaults are filled in even when the JSON was bad
    ensures unmarshalled.email != "" && unmarshalled.password != "" ==>
      r.config == WithDefaults(unmarshalled)
      && r.err == (if parseErr.Some? then Some(JsonError(parseErr.value)) else None)
    ensures r.err.None? <==> unmarshalled.email != "" && unmarshalled.password != "" && parseErr.None?
  {
    if unmarshalled.email == "" then Loaded(unmarshalled, Some(EmptyEmail))
    else if unmarshalled.password == "" then Loaded(unmarshalled, Some(EmptyPassword))
    else
      var c := WithDefaults(unmarshalled);
      if parseErr.Some? then Loaded(c, Some(JsonError(parseErr.value))) else Loaded(c, None)
  }

  /** Filling in defaults a second time changes nothing. */
  lemma DefaultsIdempotent(c: Config)
    ensures WithDefaults(WithDefaults(c)) == WithDefaults(c)
  {
  }

  /** Whatever `LoadConfig` returns, the credentials and the switch are the ones read. */
  lemma LoadKeepsCredentials(c: Config, parseErr: Option<Cause>)
    ensures var r := LoadConfig(c, parseErr);
      r.config.email == c.email && r.config.password == c.password
      && r.config.enableSnoreToast == c.enableSnoreToast
  {
  }

  /** The all-empty template written on first run. */
  const Template := Config("", "", "", "", false, "", "")

  /** The template is turned away with "empty email", even with a JSON error. */
  lemma TemplateRejected(parseErr: Option<Cause>)
    ensures LoadConfig(Template, parseErr).err == Some(EmptyEmail)
    ensures LoadConfig(Template, parseErr).err.value.Error() == "empty email"
  {
  }
}
