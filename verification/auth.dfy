/**
 * The client side of the OAuth 2.0 implicit grant (section 4.2.2 of RFC 6749)
 * as fe/src/App.js performs it on first render: a stored token wins; otherwise
 * the access token is cut out of the redirect's URL fragment, persisted, and the
 * fragment is cleared. Also the logout action and the guard that starts the
 * playback SDK only for a truthy token.
 */
module Auth {
  import opened Wrappers
  import opened Strings

  /** The value the React `token` state holds: JavaScript `null`, `undefined` or a string. */
  datatype TokenValue = Null | Undefined | Text(s: string)

  /** JavaScript truthiness of the token: a non-empty string. */
  predicate Truthy(t: TokenValue) {
    t.Text? && t.s != ""
  }

  /** `localStorage.getItem("token")`: `null` when the key is absent. */
  function StoredToken(stored: Option<string>): TokenValue {
    if stored.None? then Null else Text(stored.value)
  }

  /** `String(v)`, which `localStorage.setItem` applies to the value it stores. */
  function StorageString(t: TokenValue): string {
    match t
    case Null => "null"
    case Undefined => "undefined"
    case Text(s) => s
  }

  const AccessTokenKey := "access_token"

  /** The pieces of the fragment after its first character, split on `&`. */
  function Segments(hash: string): seq<string>
    requires |hash| > 0
  {
    Split(hash[1..], '&')
  }

  /** `segment.split("=")[1]`: the text between the first and second `=`, or `undefined`. */
  function ValueOf(segment: string): (r: TokenValue)
    ensures r != Null
    ensures r.Text? ==> '=' !in r.s
  {
    var pieces := Split(segment, '=');
    if |pieces| >= 2 then Text(pieces[1]) else Undefined
  }

  /**
   * The chain `hash.substring(1).split("&").find(startsWith("access_token")).split("=")[1]`.
   * `None` stands for the TypeError thrown when no segment matches (`.split`
   * of `undefined`); a matching segment without `=` yields `undefined`.
   * The value is taken verbatim: no percent-decoding.
   */
  function ParseFragment(hash: string): (r: Option<TokenValue>)
    requires |hash| > 0
    ensures r.None? <==> forall j :: 0 <= j < |Segments(hash)| ==> !StartsWith(Segments(hash)[j], AccessTokenKey)
    ensures r.Some? ==> r.value != Null
    ensures r.Some? && r.value.Text? ==> '=' !in r.value.s && '&' !in r.value.s
    ensures r.Some? ==>
      exists k :: 0 <= k < |Segments(hash)| && StartsWith(Segments(hash)[k], AccessTokenKey)
        && (forall j :: 0 <= j < k ==> !StartsWith(Segments(hash)[j], AccessTokenKey))
        && r.value == ValueOf(Segments(hash)[k])
  {
    var segments := Segments(hash);
    match FindFirst(segments, AccessTokenKey)
    case None => None
    case Some(k) =>
      assert '&' !in segments[k];
      SplitSubset(segments[k], '=', '&');
      Some(ValueOf(segments[k]))
  }

  /** A character absent from the text is absent from every piece of its split. */
  lemma {:induction false} SplitSubset(s: string, c: char, d: char)
    requires d !in s
    ensures forall i :: 0 <= i < |Split(s, c)| ==> d !in Split(s, c)[i]
    decreases |s|
  {
    if |s| > 0 {
      assert d !in s[1..] by {
        forall i | 0 <= i < |s[1..]| ensures s[1..][i] != d { assert s[1..][i] == s[i + 1]; }
      }
      SplitSubset(s[1..], c, d);
    }
  }

  /** Text without the separator splits into itself alone. */
  lemma SplitWithout(s: string, c: char)
    requires c !in s
    ensures Split(s, c) == [s]
  {
    SplitPrefix(s, "", c);
    assert s + "" == s;
  }

  /** The outcome of the mount effect: it throws, or it leaves a token, the storage key and the fragment. */
  datatype EffectResult = Threw | Ran(token: TokenValue, stored: Option<string>, hash: string)

  /**
   * The mount effect of App.js: `stored` is the `token` storage key, `hash` is
   * `window.location.hash`. The fragment is parsed only when the stored token is
   * falsy and the fragment is non-empty.
   */
  function TokenEffect(stored: Option<string>, hash: string): (r: EffectResult)
    ensures stored.Some? && stored.value != "" ==> r == Ran(Text(stored.value), stored, hash)
    ensures hash == "" ==> r == Ran(StoredToken(stored), stored, "")
    ensures r.Threw? <==>
      (stored.None? || stored.value == "") && |hash| > 0 && ParseFragment(hash).None?
    ensures (stored.None? || stored.value == "") && |hash| > 0 && ParseFragment(hash).Some? ==>
      r == Ran(ParseFragment(hash).value, Some(StorageString(ParseFragment(hash).value)), "")
    ensures r.Ran? && r.hash != hash ==>
      |hash| > 0 && r.hash == "" && ParseFragment(hash) == Some(r.token)
        && r.stored == Some(StorageString(r.token))
  {
    var token := StoredToken(stored);
    if !Truthy(token) && |hash| > 0 then
      match ParseFragment(hash)
      case None => Threw
      case Some(t) => Ran(t, Some(StorageString(t)), "")
    else Ran(token, stored, hash)
  }

  /**
   * Running the effect again after it succeeded (the routed app's effect has no
   * dependencies, so that is a reload) neither parses nor throws, and leaves storage and fragment alone. The token is the
   * same, except that a persisted `undefined` comes back as the string "undefined".
   */
  lemma RerunIsNoOp(stored: Option<string>, hash: string)
    requires TokenEffect(stored, hash).Ran?
    ensures var r := TokenEffect(stored, hash);
      TokenEffect(r.stored, r.hash)
        == Ran(if r.token == Undefined then Text("undefined") else r.token, r.stored, r.hash)
  {
  }

  /**
   * The rule the implicit-grant redirect relies on: in `#seg1&seg2&...`, when the
   * first segment starting with `access_token` is `access_token=V` (possibly
   * followed by `=...`), the token is exactly `V`, percent-escapes and all.
   */
  lemma {:induction false} ExtractsValue(segs: seq<string>, k: nat, v: string, tail: string)
    requires k < |segs|
    requires forall i :: 0 <= i < |segs| ==> '&' !in segs[i]
    requires forall j :: 0 <= j < k ==> !StartsWith(segs[j], AccessTokenKey)
    requires segs[k] == AccessTokenKey + "=" + v + tail
    requires '=' !in v
    requires tail == "" || tail[0] == '='
    ensures ParseFragment("#" + Join(segs, "&")) == Some(Text(v))
  {
    var hash := "#" + Join(segs, "&");
    assert hash[1..] == Join(segs, "&");
    SplitJoin(segs, '&');
    assert Segments(hash) == segs;
    assert StartsWith(segs[k], AccessTokenKey) by {
      assert segs[k][..|AccessTokenKey|] == AccessTokenKey;
    }
    assert FindFirst(segs, AccessTokenKey) == Some(k);
    SegmentValue(v, tail);
  }

  /** `access_token=V`, optionally followed by `=...`, has value `V`. */
  lemma SegmentValue(v: string, tail: string)
    requires '=' !in v
    requires tail == "" || tail[0] == '='
    ensures ValueOf(AccessTokenKey + "=" + v + tail) == Text(v)
  {
    var afterKey := "=" + v + tail;
    assert AccessTokenKey + "=" + v + tail == AccessTokenKey + afterKey;
    assert '=' !in AccessTokenKey;
    SplitPrefix(AccessTokenKey, afterKey, '=');
    assert afterKey == [afterKey[0]] + afterKey[1..];
    assert afterKey[1..] == v + tail;
    SplitPrefix(v, tail, '=');
    assert Split(tail, '=')[0] == "" by {
      if tail != "" {
        assert tail == [tail[0]] + tail[1..];
      }
    }
    assert v + "" == v;
  }

  /** The app's `logout`: the token state becomes `""` and the storage key is removed. */
  datatype Session = Session(token: TokenValue, stored: Option<string>)

  function Logout(s: Session): (r: Session)
    ensures !Truthy(r.token) && r.stored.None?
  {
    Session(Text(""), None)
  }

  /**
   * The player-initialisation effect returns early unless the token is truthy
   * (App.js:50). `null` and `undefined` never start it, and a token that does
   * start it is persisted so that a reload restores it unchanged.
   */
  function StartsPlayerSdk(t: TokenValue): (r: bool)
    ensures t.Null? || t.Undefined? ==> !r
    ensures r ==> forall hash: string ::
      TokenEffect(Some(StorageString(t)), hash) == Ran(t, Some(StorageString(t)), hash)
  {
    Truthy(t)
  }

  /**
   * A first login: with no usable stored token, a redirect fragment whose first
   * `access_token` segment carries a non-empty value V stores V, clears the
   * fragment and starts the player SDK.
   */
  lemma FreshLoginStartsSdk(stored: Option<string>, segs: seq<string>, k: nat, v: string, tail: string)
    requires stored.None? || stored.value == ""
    requires k < |segs|
    requires forall i :: 0 <= i < |segs| ==> '&' !in segs[i]
    requires forall j :: 0 <= j < k ==> !StartsWith(segs[j], AccessTokenKey)
    requires segs[k] == AccessTokenKey + "=" + v + tail
    requires '=' !in v && v != ""
    requires tail == "" || tail[0] == '='
    ensures var r := TokenEffect(stored, "#" + Join(segs, "&"));
      r == Ran(Text(v), Some(v), "") && StartsPlayerSdk(r.token)
  {
    ExtractsValue(segs, k, v, tail);
  }

  /** After logout, a reload with an empty fragment finds no token and does not start the player SDK. */
  lemma LogoutThenReload(s: Session)
    ensures var r := TokenEffect(Logout(s).stored, "");
      r.Ran? && !StartsPlayerSdk(r.token)
  {
  }

  /** Example: the fragment `#access_token`, whose only segment has no `=`, parses to `undefined`. */
  lemma BareKeyParses(hash: string)
    requires hash == "#" + AccessTokenKey
    ensures ParseFragment(hash) == Some(Undefined)
  {
    assert hash[1..] == AccessTokenKey;
    assert '&' !in AccessTokenKey && '=' !in AccessTokenKey;
    SplitWithout(AccessTokenKey, '&');
    assert Segments(hash) == [AccessTokenKey];
    assert StartsWith(AccessTokenKey, AccessTokenKey);
    assert FindFirst([AccessTokenKey], AccessTokenKey) == Some(0);
    SplitWithout(AccessTokenKey, '=');
    assert ValueOf(AccessTokenKey) == Undefined;
  }

  /** A segment that is exactly `access_token` parses to `undefined`, which is persisted as the string "undefined". */
  lemma BareKeyPersistsUndefined()
    ensures TokenEffect(None, "#access_token") == Ran(Undefined, Some("undefined"), "")
    ensures TokenEffect(Some("undefined"), "") == Ran(Text("undefined"), Some("undefined"), "")
    ensures StartsPlayerSdk(Text("undefined"))
  {
    BareKeyParses("#access_token");
    assert TokenEffect(None, "#access_token") == Ran(Undefined, Some("undefined"), "");
  }
}
