/** Reading the user from the request's cookie (app/security.ts): the token is
    the second piece of the cookie split on "=", and the user is the `sub` the
    token decoder finds in it. The decoder is a parameter. */
module Security {
  import opened Common
  import opened Text

  /** The object `getUser` returns: `{}` or `{ user }`, where `user` may
      itself be undefined. */
  datatype UserInfo = NoUser | User(user: Option<string>)

  /** `cookie.split("=")[1]`: undefined when the cookie has no "=". */
  function Token(cookie: string): Option<string>
  {
    var parts := Split(cookie, '=');
    if |parts| > 1 then Some(parts[1]) else None
  }

  /** `getUser(cookie)`: `{}` without a cookie, otherwise the `sub` of the
      decoded token; what the decoder throws is not caught. */
  function GetUser<E>(cookie: Option<string>, tokenDecoder: Option<string> -> Result<Option<string>, E>): Result<UserInfo, E>
  {
    if cookie.None? then Returned(NoUser)
    else
      match tokenDecoder(Token(cookie.value))
      case Returned(sub) => Returned(User(sub))
      case Thrown(e) => Thrown(e)
  }

  /** The token is undefined exactly when the cookie has no "=". */
  lemma {:induction false} TokenDefined(cookie: string)
    ensures Token(cookie).None? <==> '=' !in cookie
  {
    if '=' in cookie {
      var i := IndexOf(cookie, '=');
      assert cookie == cookie[..i] + ['='] + cookie[i + 1..];
      SplitAtFirst(cookie[..i], cookie[i + 1..], '=');
    }
  }

  /** The first piece of `value + tail` is `value` when `tail` starts at a
      separator or is empty. */
  lemma FirstPiece(value: string, tail: string)
    requires '=' !in value
    requires tail == [] || tail[0] == '='
    ensures Split(value + tail, '=')[0] == value
  {
    if tail == [] {
      assert value + tail == value;
    } else {
      assert value + tail == value + ['='] + tail[1..];
      SplitAtFirst(value, tail[1..], '=');
    }
  }

  /** The token is what lies between the first "=" and the next one (or the
      end); the text before the first "=" is never looked at. */
  lemma TokenBetween(name: string, value: string, tail: string)
    requires '=' !in name && '=' !in value
    requires tail == [] || tail[0] == '='
    ensures Token(name + "=" + value + tail) == Some(value)
  {
    var rest := value + tail;
    assert name + "=" + value + tail == name + ['='] + rest;
    SplitAtFirst(name, rest, '=');
    FirstPiece(value, tail);
  }

  /** For a single `name=token` cookie, the user is what the decoder finds in
      the token, whatever the name. */
  lemma SingleCookie<E>(name: string, token: string, tokenDecoder: Option<string> -> Result<Option<string>, E>)
    requires '=' !in name && '=' !in token
    ensures GetUser(Some(name + "=" + token), tokenDecoder) ==
      match tokenDecoder(Some(token))
      case Returned(sub) => Returned(User(sub))
      case Thrown(e) => Thrown(e)
  {
    TokenBetween(name, token, "");
    assert name + "=" + token + "" == name + "=" + token;
  }

  /** With several cookies, the text after the first "=" up to the next one
      is taken, whichever cookie it belongs to. */
  lemma SeveralCookies()
    ensures Token("c=v; jwt=t; d=w") == Some("v; jwt")
  {
    var name, value, tail := "c", "v; jwt", "=t; d=w";
    assert '=' !in name && '=' !in value;
    TokenBetween(name, value, tail);
    assert name + "=" + value + tail == "c=v; jwt=t; d=w";
  }

  /** Two `jwt` cookies are not told apart from one whose value runs on. */
  lemma RepeatedCookie()
    ensures Token("jwt=a; jwt=b") == Some("a; jwt")
  {
    var name, value, tail := "jwt", "a; jwt", "=b";
    assert '=' !in name && '=' !in value;
    TokenBetween(name, value, tail);
    assert name + "=" + value + tail == "jwt=a; jwt=b";
  }
}
