/**
 * Message lookup of i18n.js: two message tables, the language choice and `t`,
 * which falls back from the chosen language to English and then to the key,
 * and fills the `{0}`, `{1}`, ... placeholders with its arguments. The
 * `xWriter.language` setting is the parameter `setting`.
 */
module I18n {
  import opened Wrappers
  import opened Text

  /** `messages.en`; long texts are written as concatenated pieces. */
  function EnglishMessage(key: string): (m: Option<string>)
  {
    match key
    case "setupCredentialsTitle" => Some("Setup Credentials")
    case "setupCredentialsPrompt" =>
      Some("How do you want to configure your X/Twitter "
        + "credentials?")
    case "importOptionLabel" => Some("$(file-text) Import from file")
    case "importOptionDesc" => Some("Load .env or .txt with your keys")
    case "importOptionDetail" => Some("Recommended. Format: API_KEY=..., API_SECRET=...")
    case "manualOptionLabel" => Some("$(key) Enter manually")
    case "manualOptionDesc" => Some("Type the 4 keys one by one")
    case "manualOptionDetail" =>
      Some("If you prefer to copy/paste each key "
        + "manually")
    case "importFormatInfo" =>
      Some("The file must have this format (one "
        + "key per line):\n\nAPI_KEY=your_key\nAPI_SECRET=your_secret\n"
        + "ACCESS_TOKEN=your_token\nACCESS_SECRET=your_access_secret")
    case "selectFile" => Some("Select File")
    case "importError" => Some("Error importing credentials: {0}")
    case "missingKeys" => Some("Missing the following variables: {0}")
    case "credentialsStored" => Some("Credentials stored successfully in SecretStorage")
    case "verificationSuccess" =>
      Some("✅ Credentials verified. Connected as "
        + "@{0}")
    case "verificationFailed" =>
      Some("Credentials saved, but verification "
        + "failed: {0}. Please ensure they are "
        + "valid.")
    case "deleteConfirm" =>
      Some("Are you sure you want to delete your "
        + "X/Twitter credentials from VS Code?")
    case "deleteButton" => Some("Yes, delete")
    case "cancelButton" => Some("Cancel")
    case "credentialsDeleted" => Some("Credentials deleted successfully.")
    case "missingCredentialsPost" =>
      Some("Missing credentials. Please configure "
        + "them first.")
    case "setupNow" => Some("Do you want to configure them now?")
    case "yes" => Some("Yes")
    case "no" => Some("No")
    case "rateLimitReached" =>
      Some("⚠️ You have reached your daily limit "
        + "of 17 tweets. Resets in {0}.")
    case "tweetPlaceholder" => Some("What's happening?")
    case "tweetEmpty" => Some("Tweet cannot be empty")
    case "tweetTooLong" => Some("⚠️ {0}/280 characters - Too long")
    case "postingTitle" => Some("Posting to X...")
    case "tweetSuccess" => Some("✅ Tweet posted successfully!")
    case "viewOnX" => Some("View on X")
    case "error429" =>
      Some("⛔ Error 429: You have exceeded the Twitter "
        + "API limit for today.")
    case "errorAuth" =>
      Some("⛔ Auth/Permission Error. Check your "
        + "credentials.")
    case "errorGeneric" => Some("Error posting tweet: {0}")
    case "donatePrompt" =>
      Some("💙 Enjoying X Writer? Consider supporting "
        + "development")
    case "donateButton" => Some("Buy me a Coffee ☕")
    case "laterButton" => Some("Later")
    case "apiKeyPrompt" => Some("Enter your Twitter API Key")
    case "apiSecretPrompt" => Some("Enter your Twitter API Secret")
    case "accessTokenPrompt" => Some("Enter your Twitter Access Token")
    case "accessSecretPrompt" => Some("Enter your Twitter Access Secret")
    case "tree.postTweet" => Some("✍️ Post Tweet")
    case "tree.postTweetTooltip" => Some("Write and post a tweet")
    case "tree.setup" => Some("⚙️ Setup Credentials")
    case "tree.setupTooltip" => Some("Configure your Twitter credentials")
    case "tree.reset" => Some("🗑️ Delete Credentials")
    case "tree.resetTooltip" => Some("Delete your saved credentials")
    case "tree.donate" => Some("💙 Donate / Support")
    case "tree.donateTooltip" => Some("Support X Writer development")
    case "tree.help" => Some("❓ Help & About")
    case "tree.helpTooltip" => Some("Commands info and About developer")
    case "helpMessage" =>
      Some("X Writer v0.0.1\n\nCommands:\n- Post Tweet: "
        + "Publish to X\n- Setup/Import: Configure "
        + "keys\n- Reset: Delete keys\n\nChange Language: "
        + "Settings > X Writer > Language\n\nCreated "
        + "by Jawuil Pineda")
    case "changeLanguage" => Some("Change Language")
    case "selectLanguage" => Some("Select Language")
    case "languageChanged" => Some("Language changed to {0}")
    case "visitWebsite" => Some("🌐 Visit jawuil.dev")
    case "viewReadme" => Some("📖 View Documentation")
    case _ => None
  }

  /** `messages.es`. */
  function SpanishMessage(key: string): (m: Option<string>)
  {
    match key
    case "setupCredentialsTitle" => Some("Configurar Credenciales")
    case "setupCredentialsPrompt" =>
      Some("¿Cómo quieres configurar tus credenciales "
        + "de X/Twitter?")
    case "importOptionLabel" => Some("$(file-text) Importar desde archivo")
    case "importOptionDesc" => Some("Cargar .env o .txt con tus claves")
    case "importOptionDetail" => Some("Recomendado. Formato: API_KEY=..., API_SECRET=...")
    case "manualOptionLabel" => Some("$(key) Ingresar manualmente")
    case "manualOptionDesc" => Some("Escribir las 4 claves una por una")
    case "manualOptionDetail" =>
      Some("Si prefieres copiar y pegar cada clave "
        + "manualmente")
    case "importFormatInfo" =>
      Some("El archivo debe tener este formato (una "
        + "clave por línea):\n\nAPI_KEY=tu_clave\n"
        + "API_SECRET=tu_secreto\nACCESS_TOKEN=tu_token\n"
        + "ACCESS_SECRET=tu_secreto_acceso")
    case "selectFile" => Some("Seleccionar Archivo")
    case "importError" => Some("Error al importar credenciales: {0}")
    case "missingKeys" => Some("Faltan las siguientes variables: {0}")
    case "credentialsStored" => Some("Credenciales guardadas correctamente")
    case "verificationSuccess" =>
      Some("✅ Credenciales verificadas. Conectado "
        + "como @{0}")
    case "verificationFailed" =>
      Some("Credenciales guardadas, pero la verificación "
        + "falló: {0}. Asegúrate de que sean válidas.")
    case "deleteConfirm" =>
      Some("¿Estás seguro de que quieres eliminar "
        + "tus credenciales de X/Twitter de VS "
        + "Code?")
    case "deleteButton" => Some("Sí, eliminar")
    case "cancelButton" => Some("Cancelar")
    case "credentialsDeleted" => Some("Credenciales eliminadas correctamente.")
    case "missingCredentialsPost" =>
      Some("Faltan credenciales. Por favor configúralas "
        + "primero.")
    case "setupNow" => Some("¿Quieres configurarlas ahora?")
    case "yes" => Some("Sí")
    case "no" => Some("No")
    case "rateLimitReached" =>
      Some("⚠️ Has alcanzado tu límite diario de "
        + "17 tweets. Se reinicia en {0}.")
    case "tweetPlaceholder" => Some("¿Qué está pasando?")
    case "tweetEmpty" => Some("El tweet no puede estar vacío")
    case "tweetTooLong" => Some("⚠️ {0}/280 caracteres - Demasiado largo")
    case "postingTitle" => Some("Publicando en X...")
    case "tweetSuccess" => Some("✅ Tweet publicado con éxito!")
    case "viewOnX" => Some("Ver en X")
    case "error429" =>
      Some("⛔ Error 429: Has excedido el límite "
        + "de la API de Twitter por hoy.")
    case "errorAuth" =>
      Some("⛔ Error de permisos/autenticación. Verifica "
        + "tus credenciales.")
    case "errorGeneric" => Some("Error al publicar: {0}")
    case "donatePrompt" =>
      Some("💙 ¿Te gusta X Writer? Considera apoyar "
        + "el desarrollo")
    case "donateButton" => Some("Donar un Café ☕")
    case "laterButton" => Some("Más tarde")
    case "apiKeyPrompt" => Some("Introduce tu Twitter API Key")
    case "apiSecretPrompt" => Some("Introduce tu Twitter API Secret")
    case "accessTokenPrompt" => Some("Introduce tu Twitter Access Token")
    case "accessSecretPrompt" => Some("Introduce tu Twitter Access Secret")
    case "tree.postTweet" => Some("✍️ Publicar Tweet")
    case "tree.postTweetTooltip" => Some("Escribe y publica un tweet")
    case "tree.setup" => Some("⚙️ Configurar Credenciales")
    case "tree.setupTooltip" => Some("Configura tus credenciales de Twitter")
    case "tree.reset" => Some("🗑️ Eliminar Credenciales")
    case "tree.resetTooltip" => Some("Elimina tus credenciales guardadas")
    case "tree.donate" => Some("💙 Donar / Apoyar")
    case "tree.donateTooltip" => Some("Apoya el desarrollo de X Writer")
    case "tree.help" => Some("❓ Ayuda / Acerca de")
    case "tree.helpTooltip" => Some("Información de comandos y desarrollador")
    case "helpMessage" =>
      Some("X Writer v0.0.1\n\nComandos:\n- Publicar: "
        + "Postea en X\n- Configurar/Importar: Gestiona "
        + "claves\n- Eliminar: Borra credenciales\n"
        + "\nCambiar Idioma: Configuración > X Writer "
        + "> Language\n\nCreado por Jawuil Pineda")
    case "changeLanguage" => Some("Cambiar Idioma")
    case "selectLanguage" => Some("Seleccionar Idioma")
    case "languageChanged" => Some("Idioma cambiado a {0}")
    case "visitWebsite" => Some("🌐 Visitar jawuil.dev")
    case "viewReadme" => Some("📖 Ver Documentación")
    case _ => None
  }

  /** `getLanguage`: the setting when it names Spanish or English, English otherwise (also when unset). */
  function GetLanguage(setting: Option<string>): (lang: string)
    ensures lang == "es" || lang == "en"
    ensures lang == "es" <==> setting == Some("es")
  {
    if setting == Some("es") || setting == Some("en") then setting.value else "en"
  }

  /** `messages[lang][key]` for the two languages there are tables for. */
  function Message(lang: string, key: string): Option<string>
    requires lang == "es" || lang == "en"
  {
    if lang == "es" then SpanishMessage(key) else EnglishMessage(key)
  }

  /** Both tables define the same keys. */
  lemma SameKeys(key: string)
    ensures EnglishMessage(key).Some? <==> SpanishMessage(key).Some?
  {
  }

  /** JavaScript truthiness of a looked-up message: present and not the empty string. */
  predicate IsTruthy(m: Option<string>) {
    m.Some? && m.value != ""
  }

  /**
   * `messages[lang][key] || messages['en'][key] || key`: the chosen language's
   * message when it has one, the English one when only that exists, and the
   * key itself for a key neither table knows.
   */
  function Template(setting: Option<string>, key: string): (s: string)
    ensures IsTruthy(Message(GetLanguage(setting), key)) ==> s == Message(GetLanguage(setting), key).value
    ensures !IsTruthy(Message(GetLanguage(setting), key)) && IsTruthy(EnglishMessage(key)) ==> s == EnglishMessage(key).value
    ensures EnglishMessage(key).None? ==> s == key
  {
    SameKeys(key);
    var m := Message(GetLanguage(setting), key);
    if IsTruthy(m) then m.value
    else if IsTruthy(EnglishMessage(key)) then EnglishMessage(key).value
    else key
  }

  /** The placeholder for argument `i`: `{i}`. */
  function Placeholder(i: nat): (p: string)
    ensures |p| >= 3 && p[0] == '{' && p[|p| - 1] == '}'
    ensures p[1..|p| - 1] == NatToDecimal(i)
  {
    "{" + NatToDecimal(i) + "}"
  }

  /** Each argument has its own placeholder. */
  lemma PlaceholdersDistinct(i: nat, j: nat)
    requires Placeholder(i) == Placeholder(j)
    ensures i == j
  {
    NatToDecimalInjective(i, j);
  }

  /**
   * The placeholder substitution of `t`: for each argument in turn, the first
   * occurrence of its placeholder in the string built so far is replaced.
   */
  function Format(template: string, args: seq<string>): string
    decreases |args|
  {
    if args == [] then template
    else ReplaceFirst(Format(template, args[..|args| - 1]), Placeholder(|args| - 1), args[|args| - 1])
  }

  /** `t(key, ...args)` as a value. */
  function Translate(setting: Option<string>, key: string, args: seq<string>): string {
    Format(Template(setting, key), args)
  }

  /** `t`: the lookup, then one replacement per argument, in order. */
  method T(setting: Option<string>, key: string, args: seq<string>) returns (str: string)
    ensures str == Translate(setting, key, args)
    ensures args == [] ==> str == Template(setting, key)
  {
    var lang := GetLanguage(setting);
    var found := Message(lang, key);
    var english := EnglishMessage(key);
    str := if IsTruthy(found) then found.value else if IsTruthy(english) then english.value else key;
    for i := 0 to |args|
      invariant str == Format(Template(setting, key), args[..i])
    {
      assert args[..i + 1][..i] == args[..i];
      str := ReplaceFirst(str, Placeholder(i), args[i]);
    }
    assert args[..|args|] == args;
  }

  /** A string without any `{` is left as it is, whatever the arguments. */
  lemma {:induction false} FormatWithoutPlaceholders(template: string, args: seq<string>)
    requires '{' !in template
    ensures Format(template, args) == template
    decreases |args|
  {
    if args != [] {
      FormatWithoutPlaceholders(template, args[..|args| - 1]);
      var p := Placeholder(|args| - 1);
      forall k: nat | k <= |template|
        ensures !OccursAt(template, p, k)
      {
      }
    }
  }

  /** An occurrence of `pat` that starts with `{` and has no `{` before it is the first one. */
  lemma FirstBrace(s: string, pat: string, j: nat)
    requires |pat| > 0 && pat[0] == '{'
    requires OccursAt(s, pat, j) && '{' !in s[..j]
    ensures IsFirstOccurrence(s, pat, j)
  {
    forall k: nat | k < j
      ensures !OccursAt(s, pat, k)
    {
    }
  }

  /** A message whose only brace is a trailing `{0}` gets its one argument in that place. */
  lemma FillSolePlaceholder(prefix: string, arg: string)
    requires '{' !in prefix
    ensures Format(prefix + "{0}", [arg]) == prefix + arg
  {
    var s := prefix + "{0}";
    var j := |prefix|;
    assert Placeholder(0) == "{0}";
    assert s[..j] == prefix && s[j..j + 3] == "{0}" && s[j + 3..] == [];
    FirstBrace(s, "{0}", j);
  }

  /** The English text of `missingKeys`. */
  lemma MissingKeysTemplate(setting: Option<string>)
    requires GetLanguage(setting) == "en"
    ensures Template(setting, "missingKeys") == "Missing the following variables: " + "{0}"
  {
    assert EnglishMessage("missingKeys") == Some("Missing the following variables: {0}");
  }

  /** The English message of a failed import: the fixed text, then the list of missing names. */
  lemma MissingKeysMessage(setting: Option<string>, names: string)
    requires GetLanguage(setting) == "en"
    ensures Translate(setting, "missingKeys", [names]) == "Missing the following variables: " + names
  {
    MissingKeysTemplate(setting);
    FillSolePlaceholder("Missing the following variables: ", names);
  }

  /**
   * In each language the labels that the credential commands compare an
   * answer against are distinct, so comparing labels tells the options apart.
   */
  lemma DispatchLabelsDiffer(setting: Option<string>)
    ensures Translate(setting, "importOptionLabel", []) != Translate(setting, "manualOptionLabel", [])
    ensures Translate(setting, "deleteButton", []) != Translate(setting, "cancelButton", [])
  {
    OptionLabelsDiffer(setting);
    ButtonLabelsDiffer(setting);
  }

  /** The import item and the manual item of the setup menu have different labels. */
  lemma OptionLabelsDiffer(setting: Option<string>)
    ensures Translate(setting, "importOptionLabel", []) != Translate(setting, "manualOptionLabel", [])
  {
    if GetLanguage(setting) == "es" {
      assert Translate(setting, "importOptionLabel", []) == "$(file-text) Importar desde archivo";
      assert Translate(setting, "manualOptionLabel", []) == "$(key) Ingresar manualmente";
    } else {
      assert Translate(setting, "importOptionLabel", []) == "$(file-text) Import from file";
      assert Translate(setting, "manualOptionLabel", []) == "$(key) Enter manually";
    }
  }

  /** The delete button and the cancel button of the reset dialog have different labels. */
  lemma ButtonLabelsDiffer(setting: Option<string>)
    ensures Translate(setting, "deleteButton", []) != Translate(setting, "cancelButton", [])
  {
    if GetLanguage(setting) == "es" {
      assert Translate(setting, "deleteButton", []) == "Sí, eliminar";
      assert Translate(setting, "cancelButton", []) == "Cancelar";
    } else {
      assert Translate(setting, "deleteButton", []) == "Yes, delete";
      assert Translate(setting, "cancelButton", []) == "Cancel";
    }
  }
}
