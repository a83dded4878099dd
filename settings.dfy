/**
 * The settings page (components/Settings.tsx): the local copy of the
 * settings being edited, its validation and saving into the application's
 * settings, the field change handler, and the Baileys connect and logout
 * handlers with the session status they record.
 */
module Settings {
  import opened Wrappers
  import opened Strings
  import opened Types
  import Campaigns

  const FonnteKeyRequired: string := "Fonnte API Key is required."
  const BaileysRequired: string := "Baileys Server URL and API Key are required."
  const GeminiKeyRequired: string := "Gemini API Key is required."

  /** The first failing check: the Fonnte key, then the Baileys URL and key, then the Gemini key. */
  function ValidateSettings(s: ApiSettings): (r: Option<string>)
    ensures r == Some(FonnteKeyRequired) <==> s.provider == "fonnte" && s.fonnteApiKey == ""
    ensures r == Some(BaileysRequired) <==>
              s.provider == "baileys" && (s.baileysServerUrl == "" || s.baileysApiKey == "")
    ensures r == Some(GeminiKeyRequired) <==>
              s.geminiApiKey == "" && !(s.provider == "fonnte" && s.fonnteApiKey == "") &&
              !(s.provider == "baileys" && (s.baileysServerUrl == "" || s.baileysApiKey == ""))
    ensures r.None? <==>
              s.geminiApiKey != "" && !(s.provider == "fonnte" && s.fonnteApiKey == "") &&
              !(s.provider == "baileys" && (s.baileysServerUrl == "" || s.baileysApiKey == ""))
  {
    if s.provider == "fonnte" && s.fonnteApiKey == "" then Some(FonnteKeyRequired)
    else if s.provider == "baileys" && (s.baileysServerUrl == "" || s.baileysApiKey == "") then Some(BaileysRequired)
    else if s.geminiApiKey == "" then Some(GeminiKeyRequired)
    else None
  }

  /** Settings that pass validation with Fonnte also enable creating a campaign. */
  lemma ValidFonnteEnablesCreate(s: ApiSettings)
    requires ValidateSettings(s).None? && s.provider == "fonnte"
    ensures Campaigns.CreateEnabled(s)
  {
  }

  /** `antiBan[key] = parseInt(value)` as the number inputs do it; no digits is NaN. */
  function NumberOf(value: string): (r: JsNumber)
    ensures ParseInt(value).None? <==> r == NaN
  {
    match ParseInt(value)
    case Some(n) => Num(n)
    case None => NaN
  }

  /** The page's `name` attributes. */
  const AntiBanPrefix: string := "antiBan."

  /**
   * `handleChange`: a name starting `antiBan.` sets the anti-ban value
   * named by its second `.`-segment to the parsed number; any other name
   * sets that top-level field to the text.
   */
  function ApplyChange(s: ApiSettings, name: string, value: string): ApiSettings {
    if StartsWith(name, AntiBanPrefix) then
      var parts := Split(name, ".");
      var key := if |parts| > 1 then parts[1] else "";
      if key == "delay" then s.(antiBan := s.antiBan.(delay := NumberOf(value)))
      else if key == "quota" then s.(antiBan := s.antiBan.(quota := NumberOf(value)))
      else s
    else if name == "provider" then s.(provider := value)
    else if name == "fonnteApiKey" then s.(fonnteApiKey := value)
    else if name == "baileysServerUrl" then s.(baileysServerUrl := value)
    else if name == "baileysApiKey" then s.(baileysApiKey := value)
    else if name == "geminiApiKey" then s.(geminiApiKey := value)
    else s
  }

  /** `antiBan.<key>` changes only that anti-ban value, to the number the text parses to. */
  lemma AntiBanChange(s: ApiSettings, key: string, value: string)
    requires key == "delay" || key == "quota"
    ensures var r := ApplyChange(s, AntiBanPrefix + key, value);
            r.(antiBan := s.antiBan) == s &&
            (key == "delay" ==> r.antiBan == s.antiBan.(delay := NumberOf(value))) &&
            (key == "quota" ==> r.antiBan == s.antiBan.(quota := NumberOf(value)))
  {
    var name := AntiBanPrefix + key;
    assert name[..|AntiBanPrefix|] == AntiBanPrefix;
    assert name == "antiBan" + ['.'] + key;
    CharAbsent("antiBan", '.');
    SplitAtChar("antiBan", '.', key);
    CharAbsent(key, '.');
    SplitAbsent(key, ".");
    assert Split(name, ".") == ["antiBan", key];
  }

  /** A top-level name changes only its own field; the anti-ban values are kept. */
  lemma TopLevelChange(s: ApiSettings, name: string, value: string)
    requires name in ["provider", "fonnteApiKey", "baileysServerUrl", "baileysApiKey", "geminiApiKey"]
    ensures var r := ApplyChange(s, name, value);
            r.antiBan == s.antiBan &&
            (name == "provider" ==> r == s.(provider := value)) &&
            (name == "fonnteApiKey" ==> r == s.(fonnteApiKey := value)) &&
            (name == "baileysServerUrl" ==> r == s.(baileysServerUrl := value)) &&
            (name == "baileysApiKey" ==> r == s.(baileysApiKey := value)) &&
            (name == "geminiApiKey" ==> r == s.(geminiApiKey := value))
  {
    StartsWithHead(name, AntiBanPrefix);
  }

  /** What `baileysService.login` resolves to, or the error it throws (`None`: not an `Error`). */
  datatype LoginStatus = LoginConnected | LoginQr | LoginError
  datatype LoginOutcome =
    | LoginReturned(status: LoginStatus, qr: Option<string>, message: Option<string>)
    | LoginThrew(errorMessage: Option<string>)

  /** What `baileysService.logout` does: resolve, or throw. */
  datatype LogoutOutcome = LogoutDone | LogoutThrew(errorMessage: Option<string>)

  const ConnectionFailed: string := "Connection failed."
  const UnknownError: string := "An unknown error occurred"
  const UnknownLogoutError: string := "An unknown error occurred during logout"

  /** A present, non-empty string. */
  predicate Truthy(v: Option<string>) {
    v.Some? && v.value != ""
  }

  /** The settings page's state. `global` is the application's settings object. */
  class SettingsPanel {
    var local: ApiSettings
    var global: ApiSettings
    var saved: bool
    var saveError: Option<string>
    var connectionError: Option<string>
    var isConnecting: bool
    var qrCode: Option<string>

    /** The page opens on a copy of the application's settings. */
    constructor(settings: ApiSettings)
      ensures local == settings && global == settings
      ensures !saved && saveError.None? && connectionError.None? && !isConnecting && qrCode.None?
    {
      local := settings;
      global := settings;
      saved := false;
      saveError := None;
      connectionError := None;
      isConnecting := false;
      qrCode := None;
    }

    /** `handleSave`: report the first failing check, or publish the local settings. */
    method Save()
      modifies this
      ensures ValidateSettings(old(local)).Some? ==>
                saveError == ValidateSettings(old(local)) && global == old(global) && saved == old(saved) &&
                connectionError == old(connectionError)
      ensures ValidateSettings(old(local)).None? ==>
                global == old(local) && saveError.None? && connectionError.None? && saved
      ensures ValidateSettings(global).None? || global == old(global)
      ensures local == old(local) && isConnecting == old(isConnecting) && qrCode == old(qrCode)
    {
      var validationError := ValidateSettings(local);
      if validationError.Some? {
        saveError := validationError;
        return;
      }
      saveError := None;
      connectionError := None;
      global := local;
      saved := true;
    }

    /** `handleChange` on the local copy. */
    method Change(name: string, value: string)
      modifies this
      ensures local == ApplyChange(old(local), name, value)
      ensures global == old(global) && saved == old(saved) && saveError == old(saveError) &&
              connectionError == old(connectionError) && isConnecting == old(isConnecting) && qrCode == old(qrCode)
    {
      local := ApplyChange(local, name, value);
    }

    /**
     * `handleBaileysConnect`: `connected` marks the session connected,
     * clears the QR and publishes the local settings; a `qr` with a code
     * stores it and marks the session connecting; `error` or a throw
     * records the message and marks the session in error. The spinner is
     * off again at the end.
     */
    method BaileysConnect(outcome: LoginOutcome)
      modifies this
      ensures !isConnecting
      ensures saved == old(saved) && saveError == old(saveError)
      ensures outcome.LoginReturned? && outcome.status == LoginConnected ==>
                local == old(local).(baileysSessionStatus := Some(Connected), baileysQrCode := None) &&
                global == local && connectionError.None? && qrCode == old(qrCode)
      ensures outcome.LoginReturned? && outcome.status == LoginQr && Truthy(outcome.qr) ==>
                local == old(local).(baileysSessionStatus := Some(Connecting), baileysQrCode := outcome.qr) &&
                qrCode == outcome.qr && global == old(global) && connectionError.None?
      ensures outcome.LoginReturned? && outcome.status == LoginQr && !Truthy(outcome.qr) ==>
                local == old(local) && global == old(global) && connectionError.None? && qrCode == old(qrCode)
      ensures outcome.LoginReturned? && outcome.status == LoginError ==>
                local == old(local).(baileysSessionStatus := Some(SessionError)) && global == old(global) &&
                connectionError == Some(if Truthy(outcome.message) then outcome.message.value else ConnectionFailed) &&
                qrCode == old(qrCode)
      ensures outcome.LoginThrew? ==>
                local == old(local).(baileysSessionStatus := Some(SessionError)) && global == old(global) &&
                connectionError == Some(outcome.errorMessage.GetOr(UnknownError)) && qrCode == old(qrCode)
    {
      isConnecting := true;
      connectionError := None;
      match outcome {
        case LoginReturned(status, qr, message) =>
          if status == LoginConnected {
            var newSettings := local.(baileysSessionStatus := Some(Connected), baileysQrCode := None);
            local := newSettings;
            global := newSettings;
          } else if status == LoginQr && qr.Some? && qr.value != "" {
            qrCode := qr;
            local := local.(baileysSessionStatus := Some(Connecting), baileysQrCode := qr);
          } else if status == LoginError {
            connectionError := Some(if message.Some? && message.value != "" then message.value else ConnectionFailed);
            local := local.(baileysSessionStatus := Some(SessionError));
          }
        case LoginThrew(errorMessage) =>
          connectionError := Some(errorMessage.GetOr(UnknownError));
          local := local.(baileysSessionStatus := Some(SessionError));
      }
      isConnecting := false;
    }

    /** `handleBaileysLogout`: success disconnects and publishes; a throw only records the message. */
    method BaileysLogout(outcome: LogoutOutcome)
      modifies this
      ensures !isConnecting
      ensures saved == old(saved) && saveError == old(saveError) && qrCode == old(qrCode)
      ensures outcome.LogoutDone? ==>
                local == old(local).(baileysSessionStatus := Some(Disconnected), baileysQrCode := None) &&
                global == local && connectionError.None?
      ensures outcome.LogoutThrew? ==>
                local == old(local) && global == old(global) &&
                connectionError == Some(outcome.errorMessage.GetOr(UnknownLogoutError))
    {
      isConnecting := true;
      connectionError := None;
      match outcome {
        case LogoutDone =>
          var newSettings := local.(baileysSessionStatus := Some(Disconnected), baileysQrCode := None);
          local := newSettings;
          global := newSettings;
        case LogoutThrew(errorMessage) =>
          connectionError := Some(errorMessage.GetOr(UnknownLogoutError));
      }
      isConnecting := false;
    }
  }

  /** The status line: a missing status reads as disconnected. */
  function SessionText(status: Option<SessionStatus>): (text: string)
    ensures text == "Disconnected" <==> status.None? || status == Some(Disconnected)
    ensures text == "Connected" <==> status == Some(Connected)
  {
    match status.GetOr(Disconnected)
    case Connected => "Connected"
    case Disconnected => "Disconnected"
    case Connecting => "Connecting... Scan QR"
    case SessionError => "Connection Error"
  }
}
