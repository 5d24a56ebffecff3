/**
 * The rules of the post command in extension.js: the validator of the tweet
 * input box, the prefill from the editor selection, the order of the guards
 * before a post, the classification of a failed post, and the lifetime
 * counter that asks for a donation every seventh post. The editor UI and the
 * Twitter client are replaced by the values they would hand back.
 */
module Extension {
  import opened Wrappers
  import opened Text
  import opened RateLimiter
  import opened Credentials
  import opened Secrets
  import I18n

  /** The longest tweet the input box accepts, in characters. */
  const MaxTweetLength: nat := 280

  /** How often, in posts, the donation prompt comes back. */
  const DonationPeriod: nat := 7

  /** A text the input box accepts: not blank and at most 280 characters long. */
  predicate Acceptable(text: string) {
    !AllWhitespace(text) && |text| <= MaxTweetLength
  }

  /**
   * `validateInput`: `None` accepts the text; otherwise the message shown
   * under the box. Emptiness is checked first, so a long run of blanks is
   * reported as empty, not as too long.
   */
  function ValidateInput(setting: Option<string>, text: string): (m: Option<string>)
    ensures AllWhitespace(text) ==> m == Some(I18n.Translate(setting, "tweetEmpty", []))
    ensures !AllWhitespace(text) && |text| > MaxTweetLength ==>
      m == Some(I18n.Translate(setting, "tweetTooLong", [NatToDecimal(|text|)]))
    ensures m.None? <==> Acceptable(text)
  {
    if text == [] || Trim(text) == [] then Some(I18n.Translate(setting, "tweetEmpty", []))
    else if |text| > MaxTweetLength then Some(I18n.Translate(setting, "tweetTooLong", [NatToDecimal(|text|)]))
    else None
  }

  /**
   * The initial value of the input box: the selected text, cut to its first
   * 280 characters. An absent editor or an empty selection is the empty string.
   */
  function Prefill(selection: string): (r: string)
    ensures |r| == if |selection| > MaxTweetLength then MaxTweetLength else |selection|
    ensures r == selection[..|r|]
  {
    if |selection| > MaxTweetLength then selection[..MaxTweetLength] else selection
  }

  /** Cutting a prefill again changes nothing. */
  lemma PrefillIdempotent(selection: string)
    ensures Prefill(Prefill(selection)) == Prefill(selection)
  {
  }

  /** A prefill is never too long: the validator accepts it unless it is blank. */
  lemma PrefillAccepted(setting: Option<string>, selection: string)
    ensures ValidateInput(setting, Prefill(selection)).None? <==> !AllWhitespace(Prefill(selection))
  {
  }

  /** What the client throws when a post fails: its `code`, when it has one, and its `message`. */
  datatype PostError = PostError(code: Option<int>, message: string)

  /** What `client.v2.tweet` gives back: the new tweet's id, or the error it threw. */
  datatype PostResponse = Posted(id: string) | Rejected(error: PostError)

  /** The three kinds of failure the catch block tells apart. */
  datatype ErrorKind = RateLimited | AuthRejected | OtherError

  function Classify(code: Option<int>): (k: ErrorKind)
    ensures k == RateLimited <==> code == Some(429)
    ensures k == AuthRejected <==> code == Some(401) || code == Some(403)
  {
    if code == Some(429) then RateLimited
    else if code == Some(401) || code == Some(403) then AuthRejected
    else OtherError
  }

  /**
   * The message of the catch block: a fixed text for the API limit and for an
   * authentication or permission refusal, the error's own message otherwise.
   */
  function ErrorMessage(setting: Option<string>, error: PostError): (m: string)
    ensures error.code == Some(429) ==> m == I18n.Template(setting, "error429")
    ensures error.code == Some(401) || error.code == Some(403) ==> m == I18n.Template(setting, "errorAuth")
    ensures Classify(error.code) == OtherError ==> m == I18n.Translate(setting, "errorGeneric", [error.message])
  {
    match Classify(error.code)
    case RateLimited => I18n.Translate(setting, "error429", [])
    case AuthRejected => I18n.Translate(setting, "errorAuth", [])
    case OtherError => I18n.Translate(setting, "errorGeneric", [error.message])
  }

  /** Only an unclassified failure shows the error's own message; 401 and 403 read alike. */
  lemma ClassifiedMessagesIgnoreDetails(setting: Option<string>, code: int, m1: string, m2: string)
    requires code == 429 || code == 401 || code == 403
    ensures ErrorMessage(setting, PostError(Some(code), m1)) == ErrorMessage(setting, PostError(Some(code), m2))
    ensures code != 429 ==> ErrorMessage(setting, PostError(Some(code), m1)) == ErrorMessage(setting, PostError(Some(401), m2))
  {
  }

  /** The donation prompt is due when the lifetime total reaches a positive multiple of seven. */
  predicate DonationDue(total: int) {
    total > 0 && total % DonationPeriod == 0
  }

  /** The number of donation prompts scheduled by `n` successful posts made after `start` earlier ones. */
  function PromptsScheduled(start: nat, n: nat): nat
    decreases n
  {
    if n == 0 then 0 else PromptsScheduled(start, n - 1) + (if DonationDue(start + n) then 1 else 0)
  }

  /** `n` posts made after `start` earlier ones schedule one prompt per multiple of seven they pass. */
  lemma {:induction false} PromptsCount(start: nat, n: nat)
    ensures PromptsScheduled(start, n) == (start + n) / DonationPeriod - start / DonationPeriod
  {
    if n > 0 {
      PromptsCount(start, n - 1);
      var t := start + n;
      assert (t - 1) / 7 + (if t % 7 == 0 then 1 else 0) == t / 7;
    }
  }

  /** From a fresh counter, `n` posts schedule `n / 7` prompts. */
  lemma PromptsFromFresh(n: nat)
    ensures PromptsScheduled(0, n) == n / DonationPeriod
  {
    PromptsCount(0, n);
  }

  /** Any seven consecutive posts schedule exactly one prompt. */
  lemma OnePromptPerSevenPosts(start: nat)
    ensures PromptsScheduled(start, DonationPeriod) == 1
  {
    PromptsCount(start, DonationPeriod);
    assert (start + 7) / 7 == start / 7 + 1;
  }

  /** The `lifetimeTweetCount` entry of the global state; a missing entry reads as 0. */
  class UsageCounter {
    var lifetimeTweetCount: nat

    constructor (lifetimeTweetCount: nat)
      ensures this.lifetimeTweetCount == lifetimeTweetCount
    {
      this.lifetimeTweetCount := lifetimeTweetCount;
    }

    /** `checkDonationPrompt`: one more post, and the prompt is scheduled when the new total is due. */
    method CheckDonationPrompt() returns (scheduled: bool)
      modifies this
      ensures lifetimeTweetCount == old(lifetimeTweetCount) + 1
      ensures scheduled <==> lifetimeTweetCount % DonationPeriod == 0
      ensures scheduled == DonationDue(lifetimeTweetCount)
    {
      var currentTotal := lifetimeTweetCount + 1;
      lifetimeTweetCount := currentTotal;
      scheduled := currentTotal > 0 && currentTotal % DonationPeriod == 0;
    }
  }

  /** All four credentials are stored and none of them is empty. */
  predicate HasAllCredentials(c: StoredCredentials) {
    forall s :: I18n.IsTruthy(StoredValue(c, s))
  }

  /** The link to a posted tweet. */
  function TweetUrl(id: string): string {
    "https://twitter.com/user/status/" + id
  }

  /** Different tweets get different links: the id can be read back from the end of the link. */
  lemma TweetUrlInjective(a: string, b: string)
    requires TweetUrl(a) == TweetUrl(b)
    ensures a == b
  {
    assert a == TweetUrl(a)[32..] && b == TweetUrl(b)[32..];
  }

  /** How the post command ends. */
  datatype PostOutcome =
    | CredentialsMissing(message: string)
    | LimitReached(message: string)
    | Cancelled
    | Succeeded(url: string, message: string, donationScheduled: bool)
    | Failed(message: string)

  /**
   * The part of the post command after the input box: the client's answer
   * decides the outcome, and only a new tweet moves the daily counter and
   * the lifetime counter.
   */
  method SendTweet(quota: QuotaStore, usage: UsageCounter, setting: Option<string>, response: PostResponse)
    returns (outcome: PostOutcome)
    requires quota.Valid()
    modifies quota, usage
    ensures quota.Valid()
    ensures response.Rejected? ==>
      && outcome == Failed(ErrorMessage(setting, response.error))
      && quota.State() == old(quota.State())
      && usage.lifetimeTweetCount == old(usage.lifetimeTweetCount)
    ensures response.Posted? ==>
      && outcome == Succeeded(TweetUrl(response.id), I18n.Translate(setting, "tweetSuccess", []),
                              DonationDue(old(usage.lifetimeTweetCount) + 1))
      && quota.State() == Incremented(old(quota.State()))
      && usage.lifetimeTweetCount == old(usage.lifetimeTweetCount) + 1
  {
    match response
    case Rejected(error) =>
      var text;
      if error.code == Some(429) {
        text := I18n.T(setting, "error429", []);
      } else if error.code == Some(401) || error.code == Some(403) {
        text := I18n.T(setting, "errorAuth", []);
      } else {
        text := I18n.T(setting, "errorGeneric", [error.message]);
      }
      outcome := Failed(text);
    case Posted(id) =>
      var url := TweetUrl(id);
      quota.IncrementTweetCount();
      var text := I18n.T(setting, "tweetSuccess", []);
      var scheduled := usage.CheckDonationPrompt();
      outcome := Succeeded(url, text, scheduled);
  }

  /** The credentials are all there exactly when each of the four is truthy. */
  lemma CredentialsPresent(c: StoredCredentials)
    ensures HasAllCredentials(c) <==>
      I18n.IsTruthy(c.apiKey) && I18n.IsTruthy(c.apiSecret) && I18n.IsTruthy(c.accessToken) && I18n.IsTruthy(c.accessSecret)
  {
    if I18n.IsTruthy(c.apiKey) && I18n.IsTruthy(c.apiSecret) && I18n.IsTruthy(c.accessToken) && I18n.IsTruthy(c.accessSecret) {
      forall s ensures I18n.IsTruthy(StoredValue(c, s)) {
        assert s == ApiKey || s == ApiSecret || s == AccessToken || s == AccessSecret;
      }
    } else {
      assert !I18n.IsTruthy(StoredValue(c, ApiKey)) || !I18n.IsTruthy(StoredValue(c, ApiSecret))
        || !I18n.IsTruthy(StoredValue(c, AccessToken)) || !I18n.IsTruthy(StoredValue(c, AccessSecret));
    }
  }

  /**
   * The post command once the credentials are known to be there: the quota
   * check with its rollover, then the input box, then the client.
   */
  method PostWithCredentials(quota: QuotaStore, usage: UsageCounter, setting: Option<string>, now: int,
                             selection: string, input: Option<string>, response: PostResponse)
    returns (outcome: PostOutcome, shown: Option<string>, sent: Option<string>)
    requires quota.Valid()
    requires I18n.IsTruthy(input) ==> Acceptable(input.value)
    modifies quota, usage
    ensures quota.Valid()
    ensures sent.Some? ==> Acceptable(sent.value) && |sent.value| <= MaxTweetLength
    ensures quota.State() == PostAttempt(old(quota.State()), now, sent.Some? && response.Posted?)
    ensures var status := Status(AfterReset(old(quota.State()), now), now);
      !status.canPost ==>
        && outcome == LimitReached(I18n.Translate(setting, "rateLimitReached", [FormatTimeUntilReset(status.resetTime, now)]))
        && shown.None? && sent.None?
    ensures shown.Some? <==> Status(AfterReset(old(quota.State()), now), now).canPost
    ensures shown.Some? ==> shown.value == Prefill(selection)
    ensures sent.Some? <==> shown.Some? && I18n.IsTruthy(input)
    ensures sent.Some? ==> sent == input
    ensures shown.Some? && sent.None? ==> outcome == Cancelled
    ensures sent.Some? && response.Rejected? ==> outcome == Failed(ErrorMessage(setting, response.error))
    ensures sent.Some? && response.Posted? ==>
      outcome == Succeeded(TweetUrl(response.id), I18n.Translate(setting, "tweetSuccess", []),
                           DonationDue(old(usage.lifetimeTweetCount) + 1))
    ensures usage.lifetimeTweetCount == old(usage.lifetimeTweetCount) + (if sent.Some? && response.Posted? then 1 else 0)
  {
    var status := quota.CanPostTweet(now);
    if !status.canPost {
      var timeLeft := FormatTimeUntilReset(status.resetTime, now);
      var text := I18n.T(setting, "rateLimitReached", [timeLeft]);
      return LimitReached(text), None, None;
    }

    shown := Some(Prefill(selection));
    if !I18n.IsTruthy(input) {
      return Cancelled, shown, None;
    }

    sent := input;
    outcome := SendTweet(quota, usage, setting, response);
  }

  /**
   * The post command. `selection` is the selected text (empty when there is
   * no editor or no selection), `input` what the input box hands back (`None`
   * when it is dismissed) and `response` what the client would answer.
   * `shown` is the value the input box was opened with, `None` when it was not
   * opened; `sent` is the text given to the client, `None` when nothing was
   * posted. The input box closes only on a text its validator accepts, so a
   * non-empty `input` is one `ValidateInput` accepts. The credentials come first, then the quota check with its
   * rollover, then the input; the daily counter and the lifetime counter move
   * only after the client has answered with a new tweet.
   */
  method PostTweet(store: CredentialStore, quota: QuotaStore, usage: UsageCounter, setting: Option<string>, now: int,
                   selection: string, input: Option<string>, response: PostResponse)
    returns (outcome: PostOutcome, shown: Option<string>, sent: Option<string>)
    requires quota.Valid()
    requires I18n.IsTruthy(input) ==> Acceptable(input.value)
    modifies quota, usage
    ensures quota.Valid()
    ensures sent.Some? ==> Acceptable(sent.value) && |sent.value| <= MaxTweetLength
    ensures !HasAllCredentials(store.GetCredentials()) ==>
      && outcome == CredentialsMissing(I18n.Translate(setting, "missingCredentialsPost", []))
      && shown.None? && sent.None?
      && quota.State() == old(quota.State())
      && usage.lifetimeTweetCount == old(usage.lifetimeTweetCount)
    ensures HasAllCredentials(store.GetCredentials()) ==>
      quota.State() == PostAttempt(old(quota.State()), now, sent.Some? && response.Posted?)
    ensures var status := Status(AfterReset(old(quota.State()), now), now);
      HasAllCredentials(store.GetCredentials()) && !status.canPost ==>
        && outcome == LimitReached(I18n.Translate(setting, "rateLimitReached", [FormatTimeUntilReset(status.resetTime, now)]))
        && shown.None? && sent.None?
    ensures shown.Some? <==>
      HasAllCredentials(store.GetCredentials()) && Status(AfterReset(old(quota.State()), now), now).canPost
    ensures shown.Some? ==> shown.value == Prefill(selection)
    ensures sent.Some? <==> shown.Some? && I18n.IsTruthy(input)
    ensures sent.Some? ==> sent == input
    ensures shown.Some? && sent.None? ==> outcome == Cancelled
    ensures sent.Some? && response.Rejected? ==> outcome == Failed(ErrorMessage(setting, response.error))
    ensures sent.Some? && response.Posted? ==>
      outcome == Succeeded(TweetUrl(response.id), I18n.Translate(setting, "tweetSuccess", []),
                           DonationDue(old(usage.lifetimeTweetCount) + 1))
    ensures usage.lifetimeTweetCount == old(usage.lifetimeTweetCount) + (if sent.Some? && response.Posted? then 1 else 0)
  {
    var creds := store.GetCredentials();
    if !I18n.IsTruthy(creds.apiKey) || !I18n.IsTruthy(creds.apiSecret)
      || !I18n.IsTruthy(creds.accessToken) || !I18n.IsTruthy(creds.accessSecret)
    {
      var text := I18n.T(setting, "missingCredentialsPost", []);
      return CredentialsMissing(text), None, None;
    }
    CredentialsPresent(creds);
    outcome, shown, sent := PostWithCredentials(quota, usage, setting, now, selection, input, response);
  }
}
