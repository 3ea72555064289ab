/**
 The Twilio provider (`provider/twilio/twilio.go`): where the credentials
 come from, and the per-recipient send loop. The secrets store and the
 Twilio API are parameters.
 */
module TwilioProvider {
  import opened Wrappers
  import opened Sachet

  const AccountSidVaultKey: string := "TWILIO_ACCOUNT_SID"
  const AuthTokenVaultKey: string := "TWILIO_AUTH_TOKEN"

  datatype Config = Config(accountSid: string, authToken: string)

  /** The credentials the Twilio client is built with. */
  datatype Client = Client(accountSid: string, authToken: string)

  /** What the secrets store was asked for: the pair of names, in order. */
  type SecretsStore = (string, string) -> Result<map<string, string>>

  /** A Go map read: a missing key reads as the zero string. */
  function Lookup(m: map<string, string>, k: string): string
  {
    if k in m then m[k] else ""
  }

  /** Both configured values are the placeholder names that send the provider to the secrets store. */
  predicate UsesVault(c: Config)
  {
    c.accountSid == AccountSidVaultKey && c.authToken == AuthTokenVaultKey
  }

  /**
   `NewTwilio`: with both placeholders the credentials come from the secrets
   store (and its failure means no provider); otherwise the configured values
   are used as they are.
   */
  function New(c: Config, secrets: SecretsStore): (r: Result<Client>)
    ensures !UsesVault(c) ==> r == Ok(Client(c.accountSid, c.authToken))
    ensures UsesVault(c) && secrets(AccountSidVaultKey, AuthTokenVaultKey).Err? ==>
              r == Err(secrets(AccountSidVaultKey, AuthTokenVaultKey).error)
    ensures UsesVault(c) && secrets(AccountSidVaultKey, AuthTokenVaultKey).Ok? ==>
              var s := secrets(AccountSidVaultKey, AuthTokenVaultKey).value;
              r == Ok(Client(Lookup(s, AccountSidVaultKey), Lookup(s, AuthTokenVaultKey)))
  {
    if UsesVault(c) then
      var s :- secrets(AccountSidVaultKey, AuthTokenVaultKey);
      Ok(Client(Lookup(s, AccountSidVaultKey), Lookup(s, AuthTokenVaultKey)))
    else
      Ok(Client(c.accountSid, c.authToken))
  }

  /** The secrets store is consulted exactly when both placeholders are configured. */
  lemma ConsultsVaultIff(c: Config, secrets: SecretsStore, other: SecretsStore)
    ensures New(c, secrets) != New(c, other) ==> UsesVault(c)
    ensures !UsesVault(c) ==> New(c, secrets).Ok?
  {
  }

  /** One `twiliogo.NewMessage` call: sender, one recipient, the text as its Body. */
  datatype Call = Call(client: Client, from: string, to: string, body: string)

  /**
   `Twilio.Send`: one message per recipient, in order; the first error is
   returned and the recipients after it are not contacted.
   */
  function Send(client: Client, m: Message, api: Call -> Status): (r: Fanout)
    ensures r.attempted <= m.to
    ensures r.error.None? ==> r.attempted == m.to
    ensures forall j :: 0 <= j < |r.attempted| - 1 ==> api(Call(client, m.from, r.attempted[j], m.text)).None?
    ensures r.error.None? <==> forall i :: 0 <= i < |m.to| ==> api(Call(client, m.from, m.to[i], m.text)).None?
    ensures r.error.Some? ==> |r.attempted| > 0 && r.error == api(Call(client, m.from, r.attempted[|r.attempted| - 1], m.text))
  {
    var send := (to: string) => api(Call(client, m.from, to, m.text));
    SendEachSucceedsIffAll(m.to, send);
    SendEach(m.to, send)
  }
}
