/**
 * The request interceptor of the shared HTTP client: it reads the `jwt`
 * cookie and, when it finds a token, attaches it as a bearer credential.
 *
 * `document.cookie` is split on `;`; each piece is trimmed and split on `=`,
 * the first part is its name and the second its value. The loop stops at
 * the first entry named `jwt`.
 */
module AxiosClient {
  import opened JsText

  /** One piece of the cookie once parsed: `[name, value]`. */
  datatype Entry = Entry(name: string, value: string)

  /** `cookie.trim().split('=')` destructured into `[name, value]`. A piece
      without `=` has no value (`undefined`), which is falsy like "" and is
      written "". */
  function ParseEntry(piece: string): Entry {
    var parts := Split(Trim(piece), '=');
    Entry(parts[0], if |parts| >= 2 then parts[1] else "")
  }

  /** Every piece parsed, in order. */
  function ParseAll(pieces: seq<string>): (es: seq<Entry>)
    ensures |es| == |pieces|
  {
    if pieces == [] then [] else [ParseEntry(pieces[0])] + ParseAll(pieces[1..])
  }

  lemma {:induction false} ParseAllAt(pieces: seq<string>, k: int)
    requires 0 <= k < |pieces|
    ensures ParseAll(pieces)[k] == ParseEntry(pieces[k])
  {
    if k > 0 {
      ParseAllAt(pieces[1..], k - 1);
    }
  }

  lemma {:induction false} ParseAllAppend(a: seq<string>, b: seq<string>)
    ensures ParseAll(a + b) == ParseAll(a) + ParseAll(b)
    decreases |a|
  {
    if a == [] {
      assert a + b == b;
    } else {
      assert (a + b)[0] == a[0] && (a + b)[1..] == a[1..] + b;
      ParseAllAppend(a[1..], b);
    }
  }

  /** The entries of a cookie string. */
  function Entries(cookie: string): seq<Entry> {
    ParseAll(Split(cookie, ';'))
  }

  /** Some entry is named `jwt`. */
  predicate HasJwt(entries: seq<Entry>) {
    exists k :: 0 <= k < |entries| && entries[k].name == "jwt"
  }

  /** Entry `k` is the first entry named `jwt`. */
  predicate FirstJwtAt(entries: seq<Entry>, k: int) {
    0 <= k < |entries| && entries[k].name == "jwt"
    && forall j :: 0 <= j < k ==> entries[j].name != "jwt"
  }

  /** The token the loop ends with: the value of the first `jwt` entry, or
      "" when there is none. */
  function FirstJwt(entries: seq<Entry>): (t: string)
    ensures !HasJwt(entries) ==> t == ""
  {
    if entries == [] then ""
    else if entries[0].name == "jwt" then entries[0].value
    else
      var t := FirstJwt(entries[1..]);
      assert !HasJwt(entries) ==> !HasJwt(entries[1..]) by {
        if HasJwt(entries[1..]) {
          var k :| 0 <= k < |entries[1..]| && entries[1..][k].name == "jwt";
          assert entries[k + 1] == entries[1..][k];
        }
      }
      t
  }

  /** The token read from a whole cookie string. */
  function TokenOf(cookie: string): string {
    FirstJwt(Entries(cookie))
  }

  /** The first `jwt` entry decides the token; any later `jwt` entry is ignored. */
  lemma {:induction false} FirstJwtDecides(entries: seq<Entry>, k: int)
    requires FirstJwtAt(entries, k)
    ensures FirstJwt(entries) == entries[k].value
  {
    if k > 0 {
      FirstJwtDecides(entries[1..], k - 1);
    }
  }

  /** Over two runs of entries, the first run decides when it holds a `jwt`
      entry; otherwise the second does. */
  lemma {:induction false} FirstJwtAppend(a: seq<Entry>, b: seq<Entry>)
    ensures FirstJwt(a + b) == if HasJwt(a) then FirstJwt(a) else FirstJwt(b)
    decreases |a|
  {
    if a == [] {
      assert a + b == b;
    } else {
      assert (a + b)[0] == a[0] && (a + b)[1..] == a[1..] + b;
      FirstJwtAppend(a[1..], b);
      if a[0].name != "jwt" {
        assert HasJwt(a) <==> HasJwt(a[1..]) by {
          if HasJwt(a) {
            var k :| 0 <= k < |a| && a[k].name == "jwt";
            assert a[1..][k - 1] == a[k];
          }
          if HasJwt(a[1..]) {
            var k :| 0 <= k < |a[1..]| && a[1..][k].name == "jwt";
            assert a[k + 1] == a[1..][k];
          }
        }
      } else {
        assert HasJwt(a) by { assert a[0].name == "jwt"; }
      }
    }
  }

  /** Cookies joined by `;`: the token comes from the first part when that
      part holds a `jwt` entry, and from the second otherwise. */
  lemma CookieJoin(a: string, b: string)
    ensures TokenOf(a + ";" + b) ==
      if HasJwt(Entries(a)) then TokenOf(a) else TokenOf(b)
  {
    assert a + ";" + b == a + [';'] + b;
    SplitConcat(a, ';', b);
    ParseAllAppend(Split(a, ';'), Split(b, ';'));
    FirstJwtAppend(Entries(a), Entries(b));
  }

  /** A piece with no white space at its ends is parsed as it stands. */
  lemma UnpaddedEntry(e: string)
    requires |e| > 0 && !IsSpace(e[0]) && !IsSpace(e[|e| - 1])
    ensures ParseEntry(e).name == Split(e, '=')[0]
    ensures ParseEntry(e).value == if |Split(e, '=')| >= 2 then Split(e, '=')[1] else ""
  {
    TrimUnpadded(e);
  }

  /** A trimmed piece `name=value=rest` has that name, and its value is the
      text between the first and the second `=`. */
  lemma EntryParts(name: string, value: string, rest: string)
    requires '=' !in name && '=' !in value
    requires |name| > 0 && !IsSpace(name[0])
    requires |rest| > 0 && !IsSpace(rest[|rest| - 1])
    ensures ParseEntry(name + "=" + value + "=" + rest) == Entry(name, value)
  {
    var e := name + "=" + value + "=" + rest;
    assert e[0] == name[0] && e[|e| - 1] == rest[|rest| - 1];
    UnpaddedEntry(e);
    assert e == name + ['='] + (value + ['='] + rest);
    SplitAtFirst(name, '=', value + ['='] + rest);
    SplitAtFirst(value, '=', rest);
  }

  /** A trimmed piece `name=value` without a second `=`. */
  lemma EntryPair(name: string, value: string)
    requires '=' !in name && '=' !in value
    requires |name| > 0 && !IsSpace(name[0])
    requires value == "" || !IsSpace(value[|value| - 1])
    ensures ParseEntry(name + "=" + value) == Entry(name, value)
  {
    var e := name + "=" + value;
    assert e[0] == name[0] && e[|e| - 1] == if value == "" then '=' else value[|value| - 1];
    UnpaddedEntry(e);
    assert e == name + ['='] + value;
    SplitAtFirst(name, '=', value);
    SplitNoSeparator(value, '=');
  }

  /** A cookie string without `;` is a single entry. */
  lemma SingleEntry(c: string)
    requires ';' !in c
    ensures Entries(c) == [ParseEntry(c)]
  {
    SplitNoSeparator(c, ';');
    assert [c][1..] == [];
  }

  /** The cookie written at login, `jwt=<token>`, gives the token back (for a
      token without `;`, `=` or trailing white space, which a JWT never has). */
  lemma LoginCookieToken(token: string)
    requires ';' !in token && '=' !in token
    requires token == "" || !IsSpace(token[|token| - 1])
    ensures TokenOf("jwt=" + token) == token
  {
    var c := "jwt=" + token;
    assert c == "jwt" + "=" + token;
    forall k | 0 <= k < |c| ensures c[k] != ';' {
      if k < 4 {
        assert c[k] == "jwt="[k];
      } else {
        assert c[k] == token[k - 4];
      }
    }
    SingleEntry(c);
    EntryPair("jwt", token);
  }

  /** `jwt=a=b` yields `a`: only the text up to the second `=` is taken. */
  lemma SecondEqualsCutsValue(a: string, b: string)
    requires ';' !in a && ';' !in b && '=' !in a
    requires |b| > 0 && !IsSpace(b[|b| - 1])
    ensures TokenOf("jwt=" + a + "=" + b) == a
  {
    var c := "jwt=" + a + "=" + b;
    assert c == "jwt" + "=" + a + "=" + b;
    forall k | 0 <= k < |c| ensures c[k] != ';' {
      if k < 4 {
        assert c[k] == "jwt="[k];
      } else if k < 4 + |a| {
        assert c[k] == a[k - 4];
      } else if k > 4 + |a| {
        assert c[k] == b[k - 5 - |a|];
      }
    }
    SingleEntry(c);
    EntryParts("jwt", a, b);
  }

  /** A first `jwt` entry with an empty or missing value ends the search
      with no token, whatever the rest of the cookie holds. */
  lemma EmptyFirstJwtStops(first: string, rest: string)
    requires ';' !in first && ParseEntry(first) == Entry("jwt", "")
    ensures TokenOf(first + ";" + rest) == ""
  {
    CookieJoin(first, rest);
    SingleEntry(first);
    assert Entries(first)[0].name == "jwt";
  }

  /** Both `jwt=` and a bare `jwt` are named `jwt` and have no value. */
  lemma EmptyJwtPieces()
    ensures ParseEntry("jwt=") == Entry("jwt", "")
    ensures ParseEntry("jwt") == Entry("jwt", "")
  {
    EntryPair("jwt", "");
    assert "jwt" + "=" + "" == "jwt=";
    UnpaddedEntry("jwt");
    SplitNoSeparator("jwt", '=');
  }

  /** The loop of the interceptor: walk the pieces, stop at the first `jwt`. */
  method FindToken(cookie: string) returns (token: string)
    ensures token == TokenOf(cookie)
  {
    var cookies := Split(cookie, ';');
    ghost var entries := ParseAll(cookies);
    token := "";
    var i := 0;
    while i < |cookies|
      invariant 0 <= i <= |cookies|
      invariant FirstJwt(entries[i..]) == FirstJwt(entries)
      invariant token == ""
    {
      var entry := ParseEntry(cookies[i]);
      ParseAllAt(cookies, i);
      assert entries[i..][0] == entry;
      if entry.name == "jwt" {
        token := entry.value;
        break;
      }
      assert entries[i..][1..] == entries[i + 1..];
      i := i + 1;
    }
  }

  /** The options every request starts from, and the interceptor that adds
      the credential to them. */
  class RequestConfig {
    var baseUrl: string
    var headers: map<string, string>

    /** `axios.create`: `<VITE_API_URL>/api` with a JSON content type. */
    constructor (apiUrl: string)
      ensures baseUrl == apiUrl + "/api"
      ensures headers == map["Content-Type" := "application/json"]
    {
      baseUrl := apiUrl + "/api";
      headers := map["Content-Type" := "application/json"];
    }

    /** With a non-empty token the `Authorization` header is set to
        `Bearer <token>`; nothing else of the config changes. */
    method AttachCredentials(cookie: string)
      modifies this
      ensures baseUrl == old(baseUrl)
      ensures TokenOf(cookie) != "" ==> headers == old(headers)["Authorization" := "Bearer " + TokenOf(cookie)]
      ensures TokenOf(cookie) == "" ==> headers == old(headers)
    {
      var token := FindToken(cookie);
      if token != "" {
        headers := headers["Authorization" := "Bearer " + token];
      }
    }
  }
}
