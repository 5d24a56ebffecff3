/**
 * The commands of credentialsManager.js that read and change the editor's
 * secret store: saving (and then verifying) the four credentials, reading them
 * back, deleting them after a confirmation, importing them from a file, and the
 * choice between importing and typing them in.
 */
module Secrets {
  import opened Wrappers
  import opened Text
  import opened Credentials
  import I18n

  /** The four values `getCredentials` returns, each `undefined` when nothing is stored under its key. */
  datatype StoredCredentials = StoredCredentials(
    apiKey: Option<string>, apiSecret: Option<string>, accessToken: Option<string>, accessSecret: Option<string>)

  function StoredValue(c: StoredCredentials, s: Slot): Option<string> {
    match s
    case ApiKey => c.apiKey
    case ApiSecret => c.apiSecret
    case AccessToken => c.accessToken
    case AccessSecret => c.accessSecret
  }

  /** What `client.v2.me()` gives: the account's user name, or the message of the error it threw. */
  datatype Verification = Verified(username: string) | VerificationFailed(message: string)

  /** A notification shown to the user. */
  datatype Notice = Info(text: string) | Warning(text: string) | Error(text: string)

  /** How `importCredentials` ends. */
  datatype ImportOutcome = ImportCancelled | ImportFailed(notice: Notice) | Imported(notice: Notice)

  /** The secret store with the four credentials written over `secrets`. */
  function WithCredentials(secrets: map<string, string>, c: CredentialSet): map<string, string> {
    secrets[SecretKey(ApiKey) := c.apiKey][SecretKey(ApiSecret) := c.apiSecret]
      [SecretKey(AccessToken) := c.accessToken][SecretKey(AccessSecret) := c.accessSecret]
  }

  /** The four secret-store keys. */
  function AllSecretKeys(): set<string> {
    {SecretKey(ApiKey), SecretKey(ApiSecret), SecretKey(AccessToken), SecretKey(AccessSecret)}
  }

  /** After the four writes each slot's secret-store key holds that slot's value. */
  lemma WithCredentialsStores(secrets: map<string, string>, c: CredentialSet)
    ensures forall s :: SecretKey(s) in WithCredentials(secrets, c) && WithCredentials(secrets, c)[SecretKey(s)] == Value(c, s)
  {
    forall s ensures SecretKey(s) in WithCredentials(secrets, c) && WithCredentials(secrets, c)[SecretKey(s)] == Value(c, s) {
      assert s == ApiKey || s == ApiSecret || s == AccessToken || s == AccessSecret;
    }
  }

  /** The four writes touch no other key of the secret store. */
  lemma WithCredentialsKeepsOthers(secrets: map<string, string>, c: CredentialSet)
    ensures WithCredentials(secrets, c).Keys == secrets.Keys + AllSecretKeys()
    ensures forall k :: k in secrets && k !in AllSecretKeys() ==> WithCredentials(secrets, c)[k] == secrets[k]
  {
  }

  /** Four deletions in a row remove the four keys together. */
  lemma RemoveEach(m: map<string, string>, a: string, b: string, c: string, d: string)
    ensures m - {a} - {b} - {c} - {d} == m - {a, b, c, d}
  {
  }

  /** The notice `saveAndVerifyCredentials` ends with. */
  function VerificationNotice(setting: Option<string>, v: Verification): (n: Notice)
    ensures n.Info? <==> v.Verified?
    ensures n.Warning? <==> v.VerificationFailed?
  {
    match v
    case Verified(username) => Info(I18n.Translate(setting, "verificationSuccess", [username]))
    case VerificationFailed(message) => Warning(I18n.Translate(setting, "verificationFailed", [message]))
  }

  /** The error `importCredentials` shows when slots are missing. */
  function MissingNotice(setting: Option<string>, missing: seq<Slot>): Notice {
    Error(I18n.Translate(setting, "importError", [I18n.Translate(setting, "missingKeys", [MissingList(missing)])]))
  }

  /** The message shown once `client.v2.me()` has answered. */
  method ShowVerification(verification: Verification, setting: Option<string>) returns (notice: Notice)
    ensures notice == VerificationNotice(setting, verification)
  {
    match verification
    case Verified(username) =>
      var text := I18n.T(setting, "verificationSuccess", [username]);
      notice := Info(text);
    case VerificationFailed(message) =>
      var text := I18n.T(setting, "verificationFailed", [message]);
      notice := Warning(text);
  }

  /** The editor's secret store and the `cachedUsername` entry of its global state. */
  class CredentialStore {
    var secrets: map<string, string>
    var cachedUsername: Option<string>

    constructor (secrets: map<string, string>, cachedUsername: Option<string>)
      ensures this.secrets == secrets && this.cachedUsername == cachedUsername
    {
      this.secrets := secrets;
      this.cachedUsername := cachedUsername;
    }

    /** `getCredentials`: the four stored values; reading changes nothing. */
    function GetCredentials(): (c: StoredCredentials)
      reads this
      ensures forall s :: StoredValue(c, s) == (if SecretKey(s) in secrets then Some(secrets[SecretKey(s)]) else None)
    {
      var c := StoredCredentials(Lookup(SecretKey(ApiKey)), Lookup(SecretKey(ApiSecret)),
        Lookup(SecretKey(AccessToken)), Lookup(SecretKey(AccessSecret)));
      assert forall s :: StoredValue(c, s) == Lookup(SecretKey(s)) by {
        forall s ensures StoredValue(c, s) == Lookup(SecretKey(s)) {
          assert s == ApiKey || s == ApiSecret || s == AccessToken || s == AccessSecret;
        }
      }
      c
    }

    /** `secrets.get(key)`. */
    function Lookup(key: string): Option<string>
      reads this
    {
      if key in secrets then Some(secrets[key]) else None
    }

    /**
     * `saveAndVerifyCredentials`: the four values are stored first, and stay
     * stored whatever the verification gives; a successful verification caches
     * the user name, a failed one leaves the cached name as it was.
     */
    method SaveAndVerifyCredentials(c: CredentialSet, verification: Verification, setting: Option<string>)
      returns (notice: Notice)
      modifies this
      ensures secrets == WithCredentials(old(secrets), c)
      ensures forall s :: StoredValue(GetCredentials(), s) == Some(Value(c, s))
      ensures cachedUsername == if verification.Verified? then Some(verification.username) else old(cachedUsername)
      ensures notice == VerificationNotice(setting, verification)
    {
      secrets := secrets[SecretKey(ApiKey) := c.apiKey];
      secrets := secrets[SecretKey(ApiSecret) := c.apiSecret];
      secrets := secrets[SecretKey(AccessToken) := c.accessToken];
      secrets := secrets[SecretKey(AccessSecret) := c.accessSecret];
      WithCredentialsStores(old(secrets), c);
      if verification.Verified? {
        cachedUsername := Some(verification.username);
      }
      notice := ShowVerification(verification, setting);
    }

    /**
     * `resetCredentials`: the four secrets are deleted and the cached user name
     * cleared exactly when the answer is the delete button's label; any other
     * answer, the cancel button's label or a dismissed dialog included, changes
     * nothing.
     */
    method ResetCredentials(answer: Option<string>, setting: Option<string>) returns (deleted: bool)
      modifies this
      ensures deleted <==> answer == Some(I18n.Translate(setting, "deleteButton", []))
      ensures answer == Some(I18n.Translate(setting, "cancelButton", [])) ==> !deleted
      ensures deleted ==> secrets == old(secrets) - AllSecretKeys() && cachedUsername == None
      ensures deleted ==> forall s :: StoredValue(GetCredentials(), s) == None
      ensures !deleted ==> secrets == old(secrets) && cachedUsername == old(cachedUsername)
    {
      var deleteLabel := I18n.T(setting, "deleteButton", []);
      if answer != Some(deleteLabel) {
        return false;
      }
      assert answer != Some(I18n.Translate(setting, "cancelButton", [])) by {
        I18n.ButtonLabelsDiffer(setting);
      }
      RemoveEach(secrets, SecretKey(ApiKey), SecretKey(ApiSecret), SecretKey(AccessToken), SecretKey(AccessSecret));
      secrets := secrets - {SecretKey(ApiKey)};
      secrets := secrets - {SecretKey(ApiSecret)};
      secrets := secrets - {SecretKey(AccessToken)};
      secrets := secrets - {SecretKey(AccessSecret)};
      cachedUsername := None;
      deleted := true;
    }

    /**
     * `importCredentials` once a file has (or has not) been chosen: the text is
     * parsed; when slots are missing the error names them and the store is not
     * touched; otherwise the four values are saved and verified.
     */
    method ImportCredentials(file: Option<string>, verification: Verification, setting: Option<string>)
      returns (outcome: ImportOutcome)
      modifies this
      ensures file.None? ==> outcome == ImportCancelled && secrets == old(secrets) && cachedUsername == old(cachedUsername)
      ensures file.Some? && ParseCredentials(file.value).Failure? ==>
        && outcome == ImportFailed(MissingNotice(setting, ParseCredentials(file.value).error))
        && secrets == old(secrets) && cachedUsername == old(cachedUsername)
      ensures file.Some? && ParseCredentials(file.value).Success? ==>
        && outcome == Imported(VerificationNotice(setting, verification))
        && secrets == WithCredentials(old(secrets), ParseCredentials(file.value).value)
        && cachedUsername == if verification.Verified? then Some(verification.username) else old(cachedUsername)
    {
      if file.None? {
        return ImportCancelled;
      }
      var parsed := ParseCredentialText(file.value);
      match parsed
      case Failure(missing) =>
        var reason := I18n.T(setting, "missingKeys", [MissingList(missing)]);
        var text := I18n.T(setting, "importError", [reason]);
        outcome := ImportFailed(Error(text));
      case Success(c) =>
        var notice := SaveAndVerifyCredentials(c, verification, setting);
        outcome := Imported(notice);
    }
  }

  /** Where `setupCredentials` goes. */
  datatype SetupRoute = NoSetup | ImportRoute | ManualRoute

  /**
   * `setupCredentials`: the picked item is recognised by comparing its label
   * with the translated import label; the import also needs the format notice
   * to be confirmed with the translated "select file" button.
   */
  function Route(setting: Option<string>, picked: Option<string>, proceed: Option<string>): (r: SetupRoute)
    ensures picked.None? ==> r == NoSetup
    ensures r == ImportRoute <==>
      picked == Some(I18n.Translate(setting, "importOptionLabel", [])) && proceed == Some(I18n.Translate(setting, "selectFile", []))
    ensures r == ManualRoute <==> picked.Some? && picked.value != I18n.Translate(setting, "importOptionLabel", [])
  {
    match picked
    case None => NoSetup
    case Some(itemLabel) =>
      if itemLabel == I18n.Translate(setting, "importOptionLabel", []) then
        if proceed == Some(I18n.Translate(setting, "selectFile", [])) then ImportRoute else NoSetup
      else ManualRoute
  }

  /** Picking either item reaches its own route in either language: the two labels differ. */
  lemma RouteByLabel(setting: Option<string>, proceed: Option<string>)
    ensures Route(setting, Some(I18n.Translate(setting, "manualOptionLabel", [])), proceed) == ManualRoute
    ensures Route(setting, Some(I18n.Translate(setting, "importOptionLabel", [])), Some(I18n.Translate(setting, "selectFile", []))) == ImportRoute
  {
    I18n.OptionLabelsDiffer(setting);
  }
}
