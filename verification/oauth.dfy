/**
 * The external view of a custom OAuth provider configuration: every field is
 * published under a fixed key, except that the client secret is redacted.
 * The JSON document is modelled as a map from key to value; the byte encoding
 * is not part of the model. A string character stands for one byte.
 */
module OAuth {

  datatype OAuthConfig = OAuthConfig(
    id: int,
    provider: string,
    displayName: string,
    logoBlobKey: string,
    status: int,
    clientID: string,
    clientSecret: string,
    authorizeURL: string,
    tokenURL: string,
    profileURL: string,
    scope: string,
    jsonUserIDPath: string,
    jsonUserNamePath: string,
    jsonUserEmailPath: string)

  /** A JSON value of the published document. */
  datatype JsonValue = JNum(n: int) | JStr(s: string)

  /** Secrets shorter than this are hidden completely. */
  const MinRevealLength: nat := 10

  /** The published form of a client secret: its first three and last three bytes
      around "..." when it is at least 10 bytes long, "..." alone otherwise. */
  function Redact(secret: string): (r: string)
    ensures |secret| >= MinRevealLength ==> r == secret[..3] + "..." + secret[|secret| - 3..]
    ensures |secret| < MinRevealLength ==> r == "..."
    ensures |r| == if |secret| >= MinRevealLength then 9 else 3
  {
    if |secret| >= MinRevealLength then secret[0..3] + "..." + secret[|secret| - 3..] else "..."
  }

  /** Redaction never publishes a secret long enough to be partly shown as it
      is, and shows at most six of its bytes: the published form is "..."
      with at most three bytes on either side. */
  lemma RedactNeverLeaks(secret: string)
    ensures |secret| >= MinRevealLength ==> Redact(secret) != secret
    ensures |Redact(secret)| <= 9
    ensures Redact(secret)[|Redact(secret)| / 2 - 1..|Redact(secret)| / 2 + 2] == "..."
  {
  }

  /** The published secret depends only on the secret's length class and its
      first and last three bytes: long secrets that agree there are published alike. */
  lemma RedactSeesOnlyEnds(a: string, b: string)
    requires |a| >= MinRevealLength && |b| >= MinRevealLength
    requires a[..3] == b[..3] && a[|a| - 3..] == b[|b| - 3..]
    ensures Redact(a) == Redact(b)
  {
  }

  /** The keys of the provider's identity and credentials. */
  const ProviderKeys: set<string> :=
    {"id", "provider", "displayName", "logoBlobKey", "status", "clientID", "clientSecret"}

  /** The keys of the provider's endpoints and profile paths. */
  const EndpointKeys: set<string> :=
    {"authorizeURL", "tokenURL", "profileURL", "scope", "jsonUserIDPath", "jsonUserNamePath", "jsonUserEmailPath"}

  /** The fourteen keys of the published document. */
  const Keys: set<string> := ProviderKeys + EndpointKeys

  lemma KeyCount()
    ensures |Keys| == 14
  {
    assert |ProviderKeys| == 7;
    assert |EndpointKeys| == 7;
    assert ProviderKeys !! EndpointKeys;
  }

  /** Every field of the configuration under its key, the secret included as stored. */
  function Fields(o: OAuthConfig): (m: map<string, JsonValue>)
    ensures m.Keys == Keys
  {
    map[
      "id" := JNum(o.id),
      "provider" := JStr(o.provider),
      "displayName" := JStr(o.displayName),
      "logoBlobKey" := JStr(o.logoBlobKey),
      "status" := JNum(o.status),
      "clientID" := JStr(o.clientID),
      "clientSecret" := JStr(o.clientSecret),
      "authorizeURL" := JStr(o.authorizeURL),
      "tokenURL" := JStr(o.tokenURL),
      "profileURL" := JStr(o.profileURL),
      "scope" := JStr(o.scope),
      "jsonUserIDPath" := JStr(o.jsonUserIDPath),
      "jsonUserNamePath" := JStr(o.jsonUserNamePath),
      "jsonUserEmailPath" := JStr(o.jsonUserEmailPath)]
  }

  /** The document `MarshalJSON` encodes: every field under its key, with the
      client secret replaced by its redacted form. */
  function MarshalJSON(o: OAuthConfig): (m: map<string, JsonValue>)
  {
    Fields(o)["clientSecret" := JStr(Redact(o.clientSecret))]
  }

  /** The document has exactly the fourteen keys. */
  lemma MarshalKeys(o: OAuthConfig)
    ensures MarshalJSON(o).Keys == Keys && |MarshalJSON(o)| == 14
  {
    KeyCount();
    assert MarshalJSON(o).Keys == Keys;
    assert |MarshalJSON(o)| == |MarshalJSON(o).Keys|;
  }

  /** Every value but the client secret is the configuration's own field under
      its key; the client secret is its redacted form, which differs from the
      stored secret whenever that is at least 10 bytes long. */
  lemma MarshalCopiesAllButSecret(o: OAuthConfig)
    ensures forall k :: k in Keys && k != "clientSecret" ==> MarshalJSON(o)[k] == Fields(o)[k]
    ensures MarshalJSON(o)["clientSecret"] == JStr(Redact(o.clientSecret))
    ensures |o.clientSecret| >= MinRevealLength ==> MarshalJSON(o)["clientSecret"] != Fields(o)["clientSecret"]
  {
    RedactNeverLeaks(o.clientSecret);
  }
}
