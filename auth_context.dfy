/** The admin session: a login checked against two fixed accounts, a token
    and its expiry kept in the browser's key-value storage, the logout that
    removes them, and the restore that runs when the provider mounts. */
module AuthContext {
  import opened Wrappers
  import opened JsStrings

  const TokenKey := "admin_token"
  const ExpiryKey := "admin_token_expiry"

  /** 24 hours in milliseconds. */
  const SessionLength: nat := 24 * 60 * 60 * 1000

  /** The accounts the login accepts, as (username, password). */
  const Accounts: seq<(string, string)> := [("admin", "admin123!"), ("administrator", "secure2024!")]

  /** `accounts.some(...)`: some account has exactly this username and
      password. */
  predicate AnyAccountMatches(accounts: seq<(string, string)>, username: string, password: string) {
    accounts != [] &&
    ((accounts[0].0 == username && accounts[0].1 == password) || AnyAccountMatches(accounts[1..], username, password))
  }

  predicate ValidCredentials(username: string, password: string) {
    AnyAccountMatches(Accounts, username, password)
  }

  /** Exactly the two listed pairs log in. */
  lemma ValidCredentialsExactly(username: string, password: string)
    ensures ValidCredentials(username, password) <==>
      (username == "admin" && password == "admin123!") ||
      (username == "administrator" && password == "secure2024!")
  {
    var a := Accounts;
    assert a[1..][1..] == [];
    assert !AnyAccountMatches(a[1..][1..], username, password);
    assert AnyAccountMatches(a[1..], username, password) <==>
      username == "administrator" && password == "secure2024!";
  }

  /** The token text before its base-64 encoding: the username and the time
      of login. */
  function TokenText(username: string, tokenTime: nat): (t: string)
    ensures t != []
  {
    username + ":" + NatToString(tokenTime)
  }

  /** The value of a digit in bases up to 36, 36 for any other character. */
  function DigitValue(c: char): nat {
    if '0' <= c <= '9' then (c - '0') as nat
    else if 'a' <= c <= 'z' then (c - 'a') as nat + 10
    else if 'A' <= c <= 'Z' then (c - 'A') as nat + 10
    else 36
  }

  /** The longest prefix of `s` made of digits of the radix. */
  function DigitRun(s: string, radix: nat): (z: string)
    ensures |z| <= |s|
  {
    if s != [] && DigitValue(s[0]) < radix then [s[0]] + DigitRun(s[1..], radix) else []
  }

  /** The run is a prefix of `s`, all digits of the radix, and stops at the
      first character that is not one. */
  lemma {:induction false} DigitRunFacts(s: string, radix: nat)
    ensures var z := DigitRun(s, radix);
      && z == s[..|z|]
      && (forall i :: 0 <= i < |z| ==> DigitValue(z[i]) < radix)
      && (|z| < |s| ==> DigitValue(s[|z|]) >= radix)
  {
    if s != [] && DigitValue(s[0]) < radix {
      DigitRunFacts(s[1..], radix);
      var z := DigitRun(s, radix);
      assert z == [s[0]] + DigitRun(s[1..], radix);
      assert forall i :: 1 <= i < |z| ==> z[i] == DigitRun(s[1..], radix)[i - 1];
    }
  }

  /** The value of a run of digits in the radix, most significant first. */
  function RadixValue(z: string, radix: nat): nat {
    if z == [] then 0 else RadixValue(z[..|z| - 1], radix) * radix + DigitValue(z[|z| - 1])
  }

  /** JavaScript's `parseInt(s)` with no radix, `None` for `NaN`: skip
      leading whitespace, read an optional sign, then a `0x`/`0X` prefix
      for base 16 or else base 10, then as many digits as follow. */
  function ParseInt(text: string): Option<int> {
    var s := TrimStart(text);
    if s != [] && s[0] == '-' then
      match ParseUnsigned(s[1..])
      case Some(v) => Some(-(v as int))
      case None => None
    else if s != [] && s[0] == '+' then ParseUnsigned(s[1..])
    else ParseUnsigned(s)
  }

  /** The digits after the sign, in base 16 after a `0x` prefix. */
  function ParseUnsigned(u: string): Option<nat> {
    if |u| >= 2 && u[0] == '0' && (u[1] == 'x' || u[1] == 'X') then LeadingValue(u[2..], 16)
    else LeadingValue(u, 10)
  }

  /** The value of the leading digits, `None` when there are none. */
  function LeadingValue(s: string, radix: nat): Option<nat> {
    var z := DigitRun(s, radix);
    if z == [] then None else Some(RadixValue(z, radix))
  }

  lemma {:induction false} DigitRunOfDigits(s: string)
    requires AllDigits(s)
    ensures DigitRun(s, 10) == s
  {
    if s != [] {
      DigitRunOfDigits(s[1..]);
      assert s == [s[0]] + s[1..];
    }
  }

  lemma {:induction false} RadixValueOfDigits(s: string)
    requires AllDigits(s)
    ensures RadixValue(s, 10) == DigitsValue(s)
  {
    if s != [] {
      RadixValueOfDigits(s[..|s| - 1]);
    }
  }

  /** Reading back the decimal text of a time gives that time; text after
      the digits is ignored unless it continues the number (a digit, or an
      `x` that turns a leading `0` into a hexadecimal prefix). */
  lemma ParseIntOfDecimal(n: nat, rest: string)
    requires rest == [] || (!IsDigit(rest[0]) && rest[0] != 'x' && rest[0] != 'X')
    ensures ParseInt(NatToString(n) + rest) == Some(n)
  {
    var d := NatToString(n);
    var s := d + rest;
    assert s[0] == d[0];
    if |s| >= 2 {
      if |d| >= 2 {
        assert s[1] == d[1];
      } else {
        assert s[1] == rest[0];
      }
    }
    ParseIntOfUnsigned(s);
    DigitRunOfDigits(d);
    DigitRunPrefix(d, rest);
    RadixValueOfDigits(d);
    DigitsValueOfNatToString(n);
  }

  /** A text that starts with a digit and no `0x` prefix is read as the
      decimal value of its leading digits. */
  lemma ParseIntOfUnsigned(s: string)
    requires s != [] && IsDigit(s[0])
    requires |s| >= 2 ==> s[1] != 'x' && s[1] != 'X'
    ensures ParseInt(s) == LeadingValue(s, 10)
  {
    assert !IsWhitespace(s[0]);
    assert TrimStart(s) == s;
  }

  /** The digit run of a run of digits followed by a non-digit is that run. */
  lemma {:induction false} DigitRunPrefix(d: string, rest: string)
    requires AllDigits(d) && (rest == [] || !IsDigit(rest[0]))
    ensures DigitRun(d + rest, 10) == d
  {
    var s := d + rest;
    if d == [] {
      assert s == rest;
      assert rest != [] ==> DigitValue(rest[0]) >= 10;
    } else {
      DigitRunPrefix(d[1..], rest);
      assert DigitRun(s, 10) == [d[0]] + DigitRun(d[1..] + rest, 10) by {
        assert s[0] == d[0] && DigitValue(d[0]) < 10;
        assert s[1..] == d[1..] + rest;
      }
      assert d == [d[0]] + d[1..];
    }
  }

  /** A text without any digit is not a number. */
  lemma ParseIntWithoutDigits(text: string)
    requires forall i :: 0 <= i < |text| ==> !IsDigit(text[i])
    ensures ParseInt(text) == None
  {
    var s := TrimStart(text);
    TrimStartFacts(text);
    assert forall i :: 0 <= i < |s| ==> s[i] == text[|text| - |s| + i];
    if s != [] {
      assert forall i :: 0 <= i < |s| - 1 ==> s[1..][i] == s[i + 1];
    }
  }

  /** The stored value of a key is truthy: present and not empty. */
  predicate Truthy(storage: map<string, string>, key: string) {
    key in storage && storage[key] != ""
  }

  /** The restore accepts the stored session: both keys truthy and the
      clock before the parsed expiry (a `NaN` expiry never is). */
  predicate SessionValid(storage: map<string, string>, now: int) {
    && Truthy(storage, TokenKey) && Truthy(storage, ExpiryKey)
    && match ParseInt(storage[ExpiryKey])
       case Some(expiry) => now < expiry
       case None => false
  }

  /** The storage after the restore: an expired session with both keys
      truthy is removed, anything else is left alone. */
  function RestoredStorage(storage: map<string, string>, now: int): map<string, string> {
    if Truthy(storage, TokenKey) && Truthy(storage, ExpiryKey) && !SessionValid(storage, now)
    then storage - {TokenKey, ExpiryKey}
    else storage
  }

  /** The storage after a successful login at `now`. */
  function LoggedIn(storage: map<string, string>, username: string, tokenTime: nat, now: nat): map<string, string> {
    storage[TokenKey := TokenText(username, tokenTime)][ExpiryKey := NatToString(now + SessionLength)]
  }

  /** The storage after a logout. */
  function LoggedOut(storage: map<string, string>): map<string, string> {
    storage - {TokenKey, ExpiryKey}
  }

  /** A session saved by a login at `now` is restored exactly until the day
      has passed; after that the restore removes it. */
  lemma LoginThenRestore(storage: map<string, string>, username: string, tokenTime: nat, now: nat, later: int)
    ensures var s := LoggedIn(storage, username, tokenTime, now);
      && (SessionValid(s, later) <==> later < now + SessionLength)
      && RestoredStorage(s, later) == (if later < now + SessionLength then s else LoggedOut(s))
  {
    var s := LoggedIn(storage, username, tokenTime, now);
    assert Truthy(s, TokenKey) && Truthy(s, ExpiryKey) && ParseInt(s[ExpiryKey]) == Some(now + SessionLength) by {
      var expiry := NatToString(now + SessionLength);
      assert |TokenKey| != |ExpiryKey|;
      assert s[ExpiryKey] == expiry && s[TokenKey] == TokenText(username, tokenTime);
      ParseIntOfDecimal(now + SessionLength, "");
      assert expiry + "" == expiry;
    }
  }

  /** After a logout no session is restored and the restore removes
      nothing. */
  lemma LogoutThenRestore(storage: map<string, string>, later: int)
    ensures !SessionValid(LoggedOut(storage), later)
    ensures RestoredStorage(LoggedOut(storage), later) == LoggedOut(storage)
  {
  }

  /** A second restore finds what the first left: the same verdict, and
      nothing more to remove. */
  lemma RestoreIdempotent(storage: map<string, string>, now: int)
    ensures SessionValid(RestoredStorage(storage, now), now) == SessionValid(storage, now)
    ensures RestoredStorage(RestoredStorage(storage, now), now) == RestoredStorage(storage, now)
  {
  }

  /** The provider's state: the browser storage it reads and writes, and the
      two flags it exposes. */
  class AuthProvider {
    var storage: map<string, string>
    var isAdmin: bool
    var isLoading: bool

    /** A provider mounts logged out and loading, over whatever the storage
        holds from earlier visits. */
    constructor (storage: map<string, string>)
      ensures this.storage == storage && !isAdmin && isLoading
    {
      this.storage := storage;
      isAdmin := false;
      isLoading := true;
    }

    /** The mount effect: restore a stored session that has not expired,
        remove one that has, and stop loading. */
    method RestoreSession(now: int)
      modifies this
      ensures storage == RestoredStorage(old(storage), now)
      ensures isAdmin == (old(isAdmin) || SessionValid(old(storage), now))
      ensures !isLoading
    {
      var adminToken := if TokenKey in storage then Some(storage[TokenKey]) else None;
      var tokenExpiry := if ExpiryKey in storage then Some(storage[ExpiryKey]) else None;
      if adminToken.Some? && adminToken.value != "" && tokenExpiry.Some? && tokenExpiry.value != "" {
        var expiry := ParseInt(tokenExpiry.value);
        if expiry.Some? && now < expiry.value {
          isAdmin := true;
        } else {
          storage := storage - {TokenKey};
          storage := storage - {ExpiryKey};
        }
      }
      isLoading := false;
    }

    /** `login`: on a listed account, store a token and an expiry one day
        from `now` and become admin; otherwise change nothing. `tokenTime`
        is the clock reading the token text carries. */
    method Login(username: string, password: string, tokenTime: nat, now: nat) returns (ok: bool)
      modifies this
      ensures ok == ValidCredentials(username, password)
      ensures ok ==> storage == LoggedIn(old(storage), username, tokenTime, now) && isAdmin
      ensures !ok ==> storage == old(storage) && isAdmin == old(isAdmin)
      ensures isLoading == old(isLoading)
    {
      ok := AnyAccountMatches(Accounts, username, password);
      if ok {
        var token := TokenText(username, tokenTime);
        var expiry := now + SessionLength;
        storage := storage[TokenKey := token];
        storage := storage[ExpiryKey := NatToString(expiry)];
        isAdmin := true;
      }
    }

    /** `logout`: remove both keys and drop the admin flag. */
    method Logout()
      modifies this
      ensures storage == LoggedOut(old(storage)) && !isAdmin
      ensures isLoading == old(isLoading)
    {
      storage := storage - {TokenKey};
      storage := storage - {ExpiryKey};
      isAdmin := false;
    }
  }

  /** A visit that logs in, then a later visit that mounts a fresh provider
      over the same storage: the later visit is admin exactly while the
      day has not passed. */
  method LoginThenReload(storage: map<string, string>, username: string, password: string,
                         tokenTime: nat, now: nat, later: int) returns (ok: bool, restoredAdmin: bool)
    ensures ok == ValidCredentials(username, password)
    ensures ok ==> (restoredAdmin <==> later < now + SessionLength)
    ensures !ok ==> restoredAdmin == SessionValid(storage, later)
  {
    var first := new AuthProvider(storage);
    ok := first.Login(username, password, tokenTime, now);
    var second := new AuthProvider(first.storage);
    second.RestoreSession(later);
    restoredAdmin := second.isAdmin;
    if ok {
      LoginThenRestore(storage, username, tokenTime, now, later);
    }
  }

  /** Logging out and reloading never restores a session. */
  method LogoutThenReload(storage: map<string, string>, later: int) returns (restoredAdmin: bool)
    ensures !restoredAdmin
  {
    var first := new AuthProvider(storage);
    first.Logout();
    var second := new AuthProvider(first.storage);
    second.RestoreSession(later);
    restoredAdmin := second.isAdmin;
    LogoutThenRestore(storage, later);
  }
}
