/**
 * The bot's configuration read from the environment (`pkg/config/slack.go`,
 * `pkg/config/pagerduty.go`). The environment is a map; a variable that is not
 * set reads as the empty string, as `os.Getenv` returns it.
 */
module Config {
  import opened Wrappers
  import opened Strings

  const BotTokenVar := "SLACK_BOT_TOKEN"
  const BotIdVar := "SLACK_BOT_ID"
  const AuthorizedUserGroupNamesVar := "SLACK_AUTHORIZED_USER_GROUP_NAMES"
  const KubernetesUserGroupNamesVar := "SLACK_KUBERNETES_USER_GROUP_NAMES"
  const KubernetesAdminGroupNamesVar := "SLACK_KUBERNETES_ADMIN_GROUP_NAMES"
  const AccessTokenVar := "SLACK_ACCESS_TOKEN"
  const VerificationTokenVar := "SLACK_VERIFICATION_TOKEN"
  const ChannelIdsListForPdSyncVar := "SLACK_CHANNELS_ID_LIST"
  const ChannelMessageHistoryScanCountVar := "SLACK_CHANNELS_MESSAGE_HISTORY_SCAN_COUNT"
  const ApiPortVar := "API_PORT"
  const ApiHostVar := "API_HOST"

  const AuthTokenVar := "PAGERDUTY_AUTH_TOKEN"
  const DefaultEmailVar := "PAGERDUTY_DEFAULT_EMAIL"
  const FilterServicesVar := "PAGERDUTY_SERVICES_ID_LIST"

  /** `os.Getenv`. */
  function Getenv(env: map<string, string>, name: string): string {
    if name in env then env[name] else ""
  }

  /** `strconv.Atoi`: the value when `s` is a decimal integer that fits in 64 bits. */
  function Atoi(s: string): (r: Option<int>)
    ensures r.Some? <==> ParseInt(s).Parsed?
    ensures r.Some? ==> r.value == ParseInt(s).value
  {
    var p := ParseInt(s);
    if p.Parsed? then Some(p.value) else None
  }

  datatype SlackConfig = SlackConfig(
    botToken: string,
    botId: string,
    accessToken: string,
    verificationToken: string,
    authorizedUserGroupNames: seq<string>,
    kubernetesUserGroupNames: seq<string>,
    kubernetesAdminGroupNames: seq<string>,
    apiPort: int,
    apiHost: string,
    channelIdsListForPdSync: seq<string>,
    channelMessageHistoryScanCount: int)

  /** An integer setting: its value when the variable holds an integer, else the default. */
  function IntSetting(env: map<string, string>, name: string, default: int): (r: int)
    ensures Atoi(Getenv(env, name)).Some? ==> r == Atoi(Getenv(env, name)).value
    ensures Atoi(Getenv(env, name)).None? ==> r == default
  {
    var p := Atoi(Getenv(env, name));
    if p.Some? then p.value else default
  }

  /** A list setting: the variable split at commas. */
  function ListSetting(env: map<string, string>, name: string): (r: seq<string>)
    ensures |r| >= 1 && Join(r, ",") == Getenv(env, name)
  {
    Split(Getenv(env, name), ',')
  }

  /** The checks of `validate`, as written: the first failing one, in order. */
  function ValidateSlack(c: SlackConfig): (r: Option<string>)
    ensures r.None? <==> (c.botToken != "" && c.botId != "" && |c.authorizedUserGroupNames| > 0
      && c.accessToken != "" && c.verificationToken != "" && |c.channelIdsListForPdSync| > 0)
  {
    if c.botToken == "" then Some("missing " + BotTokenVar)
    else if c.botId == "" then Some("missing " + BotIdVar)
    else if |c.authorizedUserGroupNames| == 0 then Some("missing " + AuthorizedUserGroupNamesVar)
    else if c.accessToken == "" then Some("missing " + AccessTokenVar)
    else if c.verificationToken == "" then Some("missing " + VerificationTokenVar)
    else if |c.channelIdsListForPdSync| == 0 then Some("missing or empty " + VerificationTokenVar)
    else None
  }

  /** Every setting is present except the channel list. */
  predicate OnlyChannelsMissing(c: SlackConfig) {
    && c.botToken != "" && c.botId != "" && |c.authorizedUserGroupNames| > 0
    && c.accessToken != "" && c.verificationToken != "" && |c.channelIdsListForPdSync| == 0
  }

  /** The checks of `validate` with the empty-channel-list error naming the channel variable. */
  function ValidateSlackCorrected(c: SlackConfig): (r: Option<string>)
    ensures r.None? <==> ValidateSlack(c).None?
    ensures OnlyChannelsMissing(c) ==> r == Some("missing or empty " + ChannelIdsListForPdSyncVar)
    ensures |c.channelIdsListForPdSync| > 0 ==> r == ValidateSlack(c)
  {
    if c.botToken == "" then Some("missing " + BotTokenVar)
    else if c.botId == "" then Some("missing " + BotIdVar)
    else if |c.authorizedUserGroupNames| == 0 then Some("missing " + AuthorizedUserGroupNamesVar)
    else if c.accessToken == "" then Some("missing " + AccessTokenVar)
    else if c.verificationToken == "" then Some("missing " + VerificationTokenVar)
    else if |c.channelIdsListForPdSync| == 0 then Some("missing or empty " + ChannelIdsListForPdSyncVar)
    else None
  }

  /** A configuration whose only fault is its empty channel list is reported as a missing verification token. */
  lemma EmptyChannelListMessage(c: SlackConfig)
    requires OnlyChannelsMissing(c)
    ensures ValidateSlack(c) == Some("missing or empty " + VerificationTokenVar)
    ensures ValidateSlackCorrected(c) == Some("missing or empty " + ChannelIdsListForPdSyncVar)
  {
  }

  /** The configuration built from the environment, before validation. */
  function SlackConfigOf(env: map<string, string>): SlackConfig {
    var host := Getenv(env, ApiHostVar);
    SlackConfig(
      Getenv(env, BotTokenVar),
      Getenv(env, BotIdVar),
      Getenv(env, AccessTokenVar),
      Getenv(env, VerificationTokenVar),
      ListSetting(env, AuthorizedUserGroupNamesVar),
      ListSetting(env, KubernetesUserGroupNamesVar),
      ListSetting(env, KubernetesAdminGroupNamesVar),
      IntSetting(env, ApiPortVar, 8080),
      if host != "" then host else "0.0.0.0",
      ListSetting(env, ChannelIdsListForPdSyncVar),
      IntSetting(env, ChannelMessageHistoryScanCountVar, 20))
  }

  /** `NewSlackConfigFromEnv`: the configuration, and the validation error if any (both are returned). */
  function NewSlackConfigFromEnv(env: map<string, string>): (r: (SlackConfig, Option<string>))
    ensures r.0 == SlackConfigOf(env)
    ensures r.1 == ValidateSlack(r.0) == ValidateSlackCorrected(r.0)
    ensures r.1.None? <==> (Getenv(env, BotTokenVar) != "" && Getenv(env, BotIdVar) != ""
      && Getenv(env, AccessTokenVar) != "" && Getenv(env, VerificationTokenVar) != "")
  {
    var c := SlackConfigOf(env);
    (c, ValidateSlack(c))
  }

  /**
   * The defaults: port 8080 and scan count 20 unless their variables hold integers,
   * host `0.0.0.0` unless set; every list setting has at least one element.
   */
  lemma SlackConfigDefaults(env: map<string, string>)
    ensures var c := SlackConfigOf(env);
      && (Atoi(Getenv(env, ApiPortVar)).None? ==> c.apiPort == 8080)
      && (Atoi(Getenv(env, ChannelMessageHistoryScanCountVar)).None? ==> c.channelMessageHistoryScanCount == 20)
      && (Getenv(env, ApiHostVar) == "" ==> c.apiHost == "0.0.0.0")
      && (Getenv(env, ApiHostVar) != "" ==> c.apiHost == Getenv(env, ApiHostVar))
      && |c.authorizedUserGroupNames| >= 1 && |c.kubernetesUserGroupNames| >= 1
      && |c.kubernetesAdminGroupNames| >= 1 && |c.channelIdsListForPdSync| >= 1
  {
  }

  /** An unset list variable gives one empty name, not an empty list. */
  lemma EmptyListVariable(env: map<string, string>, name: string)
    requires Getenv(env, name) == ""
    ensures ListSetting(env, name) == [""]
  {
    var r := ListSetting(env, name);
    assert |r| > 1 ==> |Join(r, ",")| > 0;
  }

  datatype PagerdutyConfig = PagerdutyConfig(authToken: string, defaultEmail: string, filterServices: seq<string>)

  function ValidatePagerduty(c: PagerdutyConfig): (r: Option<string>)
    ensures r.None? <==> c.authToken != "" && c.defaultEmail != ""
    ensures c.authToken == "" ==> r == Some("missing " + AuthTokenVar)
  {
    if c.authToken == "" then Some("missing " + AuthTokenVar)
    else if c.defaultEmail == "" then Some("missing " + DefaultEmailVar)
    else None
  }

  /** `NewPagerdutyConfigFromEnv`: the configuration and its validation error. */
  function NewPagerdutyConfigFromEnv(env: map<string, string>): (r: (PagerdutyConfig, Option<string>))
    ensures r.0.authToken == Getenv(env, AuthTokenVar) && r.0.defaultEmail == Getenv(env, DefaultEmailVar)
    ensures |r.0.filterServices| >= 1 && Join(r.0.filterServices, ",") == Getenv(env, FilterServicesVar)
    ensures r.1.None? <==> Getenv(env, AuthTokenVar) != "" && Getenv(env, DefaultEmailVar) != ""
  {
    var c := PagerdutyConfig(Getenv(env, AuthTokenVar), Getenv(env, DefaultEmailVar), ListSetting(env, FilterServicesVar));
    (c, ValidatePagerduty(c))
  }
}
