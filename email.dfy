/**
 * Resolution of the outbound mail settings: the settings store is a map from
 * key to stored string, each option read with its default.
 */
module Email {
  import opened Wrappers
  import opened Text
  import opened Numbers

  type Settings = map<string, string>

  datatype Backend = SmtpBackend | LocalMemoryBackend

  datatype EmailBackendConfig = EmailBackendConfig(
    backend: Backend,
    host: string,
    port: int,
    username: string,
    password: string,
    useTls: bool,
    useSsl: bool,
    failSilently: bool)

  /** `int()` refused the stored port. */
  datatype ConfigError = PortNotAnInteger(stored: string)

  /** `Setting.manager.read(key, default)`. */
  function Read(settings: Settings, key: string, default: string): (v: string)
    ensures key in settings ==> v == settings[key]
    ensures key !in settings ==> v == default
  {
    if key in settings then settings[key] else default
  }

  /**
   * `Setting.manager.read_boolean(key, default)`; how a stored string is read
   * as a boolean is not part of this model and is the parameter `asBoolean`.
   */
  function ReadBoolean(settings: Settings, key: string, default: bool, asBoolean: string -> bool): (v: bool)
    ensures key in settings ==> v == asBoolean(settings[key])
    ensures key !in settings ==> v == default
  {
    if key in settings then asBoolean(settings[key]) else default
  }

  /** The port used when none is stored. */
  const DefaultPort := "25"

  lemma DefaultPortIsAnInteger()
    ensures ParseInt(DefaultPort) == Some(25)
  {
    ParseShowInt(25);
    assert ShowInt(25) == DefaultPort;
  }

  /** `get_email_backend`: the transport configuration the stored settings select. */
  function GetEmailBackend(settings: Settings, asBoolean: string -> bool): (r: Result<EmailBackendConfig, ConfigError>)
    ensures r.Failure? <==> "email_port" in settings && !IsIntLiteral(IntStrip(settings["email_port"]))
    ensures r.Failure? ==> r.error == PortNotAnInteger(settings["email_port"])
    ensures r.Success? ==>
      (r.value.backend == SmtpBackend <==> "email_backend" in settings && settings["email_backend"] == "smtp")
    ensures r.Success? && "email_port" in settings ==> ParseInt(settings["email_port"]) == Some(r.value.port)
    ensures r.Success? ==> r.value.host == Read(settings, "email_host", "localhost")
    ensures r.Success? ==> r.value.useTls == ReadBoolean(settings, "email_use_tls", false, asBoolean)
    ensures r.Success? ==> r.value.useSsl == ReadBoolean(settings, "email_use_ssl", false, asBoolean)
    ensures r.Success? ==> !r.value.failSilently
  {
    var backend := if "email_backend" in settings && settings["email_backend"] == "smtp"
                   then SmtpBackend else LocalMemoryBackend;
    var storedPort := Read(settings, "email_port", DefaultPort);
    DefaultPortIsAnInteger();
    match ParseInt(storedPort)
    case None => Failure(PortNotAnInteger(storedPort))
    case Some(port) =>
      Success(EmailBackendConfig(
        backend,
        Read(settings, "email_host", "localhost"),
        port,
        Read(settings, "email_username", ""),
        Read(settings, "email_password", ""),
        ReadBoolean(settings, "email_use_tls", false, asBoolean),
        ReadBoolean(settings, "email_use_ssl", false, asBoolean),
        false))
  }

  /** Every option left unset takes its documented default: local backend, localhost:25, no credentials, no TLS or SSL. */
  lemma UnsetOptionsTakeDefaults(settings: Settings, asBoolean: string -> bool)
    ensures var r := GetEmailBackend(settings, asBoolean);
      && r.Success? == ("email_port" !in settings || IsIntLiteral(IntStrip(settings["email_port"])))
      && (r.Success? && "email_backend" !in settings ==> r.value.backend == LocalMemoryBackend)
      && (r.Success? && "email_host" !in settings ==> r.value.host == "localhost")
      && (r.Success? && "email_port" !in settings ==> r.value.port == 25)
      && (r.Success? && "email_username" !in settings ==> r.value.username == "")
      && (r.Success? && "email_password" !in settings ==> r.value.password == "")
      && (r.Success? && "email_use_tls" !in settings ==> !r.value.useTls)
      && (r.Success? && "email_use_ssl" !in settings ==> !r.value.useSsl)
  {
    DefaultPortIsAnInteger();
    var r := GetEmailBackend(settings, asBoolean);
    if r.Success? {
      assert r.value == EmailBackendConfig(
        r.value.backend,
        Read(settings, "email_host", "localhost"),
        ParseInt(Read(settings, "email_port", DefaultPort)).value,
        Read(settings, "email_username", ""),
        Read(settings, "email_password", ""),
        ReadBoolean(settings, "email_use_tls", false, asBoolean),
        ReadBoolean(settings, "email_use_ssl", false, asBoolean),
        false);
    }
  }

  /** With nothing stored, the configuration is entirely the defaults. */
  lemma EmptySettingsGiveDefaults(asBoolean: string -> bool)
    ensures GetEmailBackend(map[], asBoolean)
         == Success(EmailBackendConfig(LocalMemoryBackend, "localhost", 25, "", "", false, false, false))
  {
    UnsetOptionsTakeDefaults(map[], asBoolean);
  }

  /** A port stored as `str(n)` is read back as `n`. */
  lemma StoredPortIsUsed(settings: Settings, asBoolean: string -> bool, n: int)
    requires "email_port" in settings && settings["email_port"] == ShowInt(n)
    ensures GetEmailBackend(settings, asBoolean).Success?
    ensures GetEmailBackend(settings, asBoolean).value.port == n
  {
    ParseShowInt(n);
  }

  /** Stored host and credentials are passed through unchanged. */
  lemma StoredStringsAreUsed(settings: Settings, asBoolean: string -> bool)
    requires GetEmailBackend(settings, asBoolean).Success?
    ensures var c := GetEmailBackend(settings, asBoolean).value;
      && ("email_host" in settings ==> c.host == settings["email_host"])
      && ("email_username" in settings ==> c.username == settings["email_username"])
      && ("email_password" in settings ==> c.password == settings["email_password"])
  {
  }
}
