/** Removing the password from a data source name before it is stored or shown. */
module Sanitize {
  import opened Strings

  /** Without options, trailing slashes and the MongoDB scheme. */
  function AddressOf(dsn: string): string {
    TrimPrefix(TrimRight(Split(dsn, '?')[0], '/'), "mongodb://")
  }

  function HidePassword(address: string): string {
    if '@' in address && address[0] != '@' then
      var parts := Split(address, '@');
      Split(parts[0], ':')[0] + ":***@" + parts[|parts| - 1]
    else address
  }

  function SanitizeDSN(dsn: string): string { HidePassword(AddressOf(dsn)) }

  // ---------- splitting ----------

  lemma {:induction false} FirstPart(s: string, c: char)
    ensures Split(s, c)[0] == UpTo(s, c)
  {
    if c in s {
      AfterShrinks(s, c);
    } else {
      UpToAbsent(s, c);
    }
  }

  lemma {:induction false} UpToAbsent(s: string, c: char)
    requires c !in s
    ensures UpTo(s, c) == s
  {
    if s != [] {
      UpToAbsent(s[1..], c);
    }
  }

  /** The last part is what follows the last separator. */
  lemma {:induction false} LastPart(a: string, c: char, b: string)
    requires c !in b
    ensures
      var parts := Split(a + [c] + b, c);
      parts[|parts| - 1] == b
    decreases |a|
  {
    var s := a + [c] + b;
    assert s[|a|] == c;
    AfterShrinks(s, c);
    if c in a {
      AfterShrinks(a, c);
      var rest := After(a, c);
      assert s == UpTo(a, c) + [c] + (rest + [c] + b);
      CutAt(UpTo(a, c), c, rest + [c] + b);
      LastPart(rest, c, b);
    } else {
      CutAt(a, c, b);
    }
  }

  lemma {:induction false} UpToPast(a: string, b: string, c: char)
    requires c !in a
    ensures UpTo(a + b, c) == a + UpTo(b, c)
  {
    if a == [] {
      assert a + b == b;
    } else {
      assert (a + b)[1..] == a[1..] + b;
      UpToPast(a[1..], b, c);
    }
  }

  lemma {:induction false} TrimRightPast(a: string, b: string, c: char)
    requires a != [] && a[|a| - 1] != c
    ensures TrimRight(a + b, c) == a + TrimRight(b, c)
  {
    if b == [] {
      assert a + b == a;
    } else {
      assert (a + b)[..|a + b| - 1] == a + b[..|b| - 1];
      TrimRightPast(a, b[..|b| - 1], c);
      if b[|b| - 1] != c {
        assert TrimRight(b, c) == b;
      }
    }
  }

  lemma {:induction false} TrimRightKeeps(s: string, c: char, d: char)
    requires d !in s
    ensures d !in TrimRight(s, c)
  {
    if s != [] && s[|s| - 1] == c {
      TrimRightKeeps(s[..|s| - 1], c, d);
    }
  }

  // ---------- what is hidden ----------

  lemma {:induction false} UpToWithin(a: string, c: char, b: string)
    ensures UpTo(a + [c] + b, c) == UpTo(a, c)
  {
    var s := a + [c] + b;
    if a != [] && a[0] != c {
      assert s[0] == a[0] && s[1..] == a[1..] + [c] + b;
      UpToWithin(a[1..], c, b);
    }
  }

  /** What is made of credentials: all of it if they begin with an at sign, else what precedes a colon or at sign. */
  function Masked(credentials: string, host: string): string {
    if credentials == "" || credentials[0] == '@' then credentials + "@" + host
    else UpTo(UpTo(credentials, '@'), ':') + ":***@" + host
  }

  lemma HidesCredentials(credentials: string, host: string)
    requires '@' !in host
    ensures HidePassword(credentials + "@" + host) == Masked(credentials, host)
  {
    var address := credentials + ['@'] + host;
    assert credentials + "@" + host == address && address[|credentials|] == '@';
    if credentials != "" && credentials[0] != '@' {
      LastPart(credentials, '@', host);
      FirstPart(address, '@');
      UpToWithin(credentials, '@', host);
      FirstPart(UpTo(credentials, '@'), ':');
    }
  }

  lemma MaskedUser(user: string, rest: string, host: string)
    requires user != "" && ':' !in user && '@' !in user
    ensures Masked(user + ":" + rest, host) == user + ":***@" + host
  {
    assert user + ":" + rest == (user + [':']) + rest && (user + ":" + rest)[0] == user[0];
    UpToPast(user + [':'], rest, '@');
    CutAt(user, ':', UpTo(rest, '@'));
  }

  /** Credentials in front of the last separator: only what precedes the first colon is shown. */
  lemma HidesPassword(user: string, rest: string, host: string)
    requires user != "" && ':' !in user && '@' !in user && '@' !in host
    ensures HidePassword(user + ":" + rest + "@" + host) == user + ":***@" + host
  {
    hide HidePassword, Masked;
    HidesCredentials(user + ":" + rest, host);
    MaskedUser(user, rest, host);
  }

  /** The part of a data source name that is shown at all. */
  lemma Shown(address: string, options: string)
    requires '?' !in address && (options == "" || options[0] == '?')
    ensures Split(address + options, '?')[0] == address
  {
    FirstPart(address + options, '?');
    UpToPast(address, options, '?');
  }

  /** The user and the beginning of the password make up the MongoDB scheme. */
  predicate MakesUpScheme(user: string, password: string) { user == "mongodb" && "//" <= password }

  /** Without the scheme in front, the beginning of the credentials is taken for it. */
  predicate TakenForScheme(scheme: string, user: string, password: string) {
    scheme == "" && MakesUpScheme(user, password)
  }

  /**
   * user:password@host with or without the MongoDB scheme and options: for a password without a question mark
   * the result shows the user and the host without trailing slashes; but where user and password make up the
   * scheme, what follows the two slashes is taken for the credentials.
   */
  lemma SanitizeHidesPassword(scheme: string, user: string, password: string, host: string, options: string)
    requires scheme == "" || scheme == "mongodb://"
    requires user != "" && ':' !in user && '@' !in user && '?' !in user
    requires '?' !in password && '@' !in host && '?' !in host && (options == "" || options[0] == '?')
    ensures
      SanitizeDSN(scheme + (user + ":" + password + "@" + host) + options) ==
        if TakenForScheme(scheme, user, password) then Masked(password[2..], TrimRight(host, '/'))
        else user + ":***@" + TrimRight(host, '/')
  {
    hide HidePassword, TrimRight, Split, TrimPrefix, Masked;
    var address := user + ":" + password + "@" + host;
    SchemeIsMadeUp(user, password, host);
    Shown(scheme + address, options);
    TrimRightKeeps(host, '/', '@');
    if TakenForScheme(scheme, user, password) {
      var rest := password[2..];
      MadeUpAddress(password, host);
      assert scheme + address == "mongodb://" + (rest + "@" + host);
      TrimmedAddress("mongodb://", rest, host);
      HidesCredentials(rest, TrimRight(host, '/'));
    } else {
      TrimmedAddress(scheme, user + ":" + password, host);
      HidesPassword(user, password, TrimRight(host, '/'));
    }
  }

  lemma {:induction false} TrimAll(s: string, c: char)
    requires forall i | 0 <= i < |s| :: s[i] == c
    ensures TrimRight(s, c) == ""
  {
    if s != [] {
      TrimAll(s[..|s| - 1], c);
    }
  }

  /** Where there are no credentials, the address is shown without scheme, trailing slashes and options. */
  lemma AddressIsShown(scheme: string, address: string, slashes: string, options: string)
    requires scheme == "mongodb://" || (scheme == "" && !("mongodb://" <= address))
    requires '?' !in address && '@' !in address && address != "" && address[|address| - 1] != '/'
    requires (forall i | 0 <= i < |slashes| :: slashes[i] == '/') && (options == "" || options[0] == '?')
    ensures SanitizeDSN(scheme + address + slashes + options) == address
  {
    hide HidePassword, TrimRight, Split, TrimPrefix;
    var whole := scheme + address + slashes;
    assert '?' !in whole by {
      assert '?' !in scheme && '?' !in slashes;
    }
    Shown(whole, options);
    assert (scheme + address)[|scheme + address| - 1] == address[|address| - 1];
    TrimRightPast(scheme + address, slashes, '/');
    TrimAll(slashes, '/');
    assert scheme + address + "" == scheme + address;
    Unprefixed(scheme, address);
    NoCredentials(address);
  }

  lemma NoCredentials(address: string)
    requires '@' !in address
    ensures HidePassword(address) == address
  {
  }

  lemma MadeUpAddress(password: string, host: string)
    requires "//" <= password
    ensures "mongodb" + ":" + password + "@" + host == "mongodb://" + (password[2..] + "@" + host)
  {
    assert password == "//" + password[2..];
    assert "mongodb" + ":" + "//" == "mongodb://";
  }

  /** So a password that begins with two slashes is shown from there on, if the user is named like the scheme. */
  lemma PasswordTakenForUser(secret: string, host: string)
    requires secret != "" && ':' !in secret && '@' !in secret && '?' !in secret && '@' !in host && '?' !in host
    ensures SanitizeDSN("mongodb" + ":" + ("//" + secret) + "@" + host) == secret + ":***@" + TrimRight(host, '/')
  {
    hide SanitizeDSN, TrimRight;
    var dsn := "mongodb" + ":" + ("//" + secret) + "@" + host;
    SanitizeHidesPassword("", "mongodb", "//" + secret, host, "");
    assert "" + dsn + "" == dsn;
    assert ("//" + secret)[2..] == secret;
    UpToAbsent(secret, '@');
    UpToAbsent(secret, ':');
  }

  /** Everything from the first question mark on is ignored, whatever it was part of. */
  lemma NothingAfterQuestion(address: string, rest: string)
    requires '?' !in address
    ensures SanitizeDSN(address + ("?" + rest)) == SanitizeDSN(address)
  {
    hide HidePassword, TrimRight, Split, TrimPrefix;
    Shown(address, "?" + rest);
    Shown(address, "");
    assert address + "" == address;
  }

  /** So a password with a question mark and no separator before it is shown up to there. */
  lemma PasswordIsShown(user: string, shown: string, rest: string)
    requires ':' !in user && '@' !in user && '?' !in user && '@' !in shown && '?' !in shown
    requires shown != "" && shown[|shown| - 1] != '/' && !("mongodb://" <= user + ":" + shown)
    ensures SanitizeDSN(user + ":" + shown + ("?" + rest)) == user + ":" + shown
  {
    var address := user + ":" + shown;
    NothingAfterQuestion(address, rest);
    hide Split;
    Shown(address, "");
    assert address + "" == address;
    assert address[|address| - 1] == shown[|shown| - 1];
    NothingToHide(address);
  }

  /**
   * The password of a user is hidden whatever the host exactly if it has no question mark and, where user and
   * password make up the scheme, what follows the slashes is once more the user's name.
   */
  lemma HiddenExactly(scheme: string, user: string, password: string)
    requires scheme == "" || scheme == "mongodb://"
    requires user != "" && ':' !in user && '@' !in user && '?' !in user
    ensures
      && '?' !in password
      && (TakenForScheme(scheme, user, password) ==> UpTo(UpTo(password[2..], '@'), ':') == user) <==>
      forall host | '@' !in host && '?' !in host ::
        SanitizeDSN(scheme + (user + ":" + password + "@" + host)) == user + ":***@" + TrimRight(host, '/')
  {
    hide SanitizeDSN, TrimRight;
    if '?' !in password {
      forall host | '@' !in host && '?' !in host
        ensures SanitizeDSN(scheme + (user + ":" + password + "@" + host)) == user + ":***@" + TrimRight(host, '/') <==>
          (TakenForScheme(scheme, user, password) ==> UpTo(UpTo(password[2..], '@'), ':') == user)
      {
        HiddenAt(scheme, user, password, host);
      }
      assert '@' !in "a" && '?' !in "a";
    } else {
      HostIsIgnored(scheme, user, password, "a", "b");
      PlainHosts();
      var hidden := user + ":***@";
      assert (hidden + "a")[|hidden|] != (hidden + "b")[|hidden|];
    }
  }

  lemma HiddenAt(scheme: string, user: string, password: string, host: string)
    requires scheme == "" || scheme == "mongodb://"
    requires user != "" && ':' !in user && '@' !in user && '?' !in user
    requires '?' !in password && '@' !in host && '?' !in host
    ensures SanitizeDSN(scheme + (user + ":" + password + "@" + host)) == user + ":***@" + TrimRight(host, '/') <==>
      (TakenForScheme(scheme, user, password) ==> UpTo(UpTo(password[2..], '@'), ':') == user)
  {
    hide SanitizeDSN, TrimRight;
    var dsn, tail := scheme + (user + ":" + password + "@" + host), ":***@" + TrimRight(host, '/');
    SanitizeHidesPassword(scheme, user, password, host, "");
    assert dsn + "" == dsn;
    if TakenForScheme(scheme, user, password) {
      var rest := password[2..];
      var shown := UpTo(UpTo(rest, '@'), ':');
      NothingShown(rest);
      SameStart(shown, user, tail);
      assert user + ":***@" + TrimRight(host,
                                        '/') == user + tail && shown + ":***@" + TrimRight(host, '/') == shown + tail;
      assert (user + tail)[0] == 'm';
    }
  }

  lemma NothingShown(rest: string)
    ensures rest == "" || rest[0] == '@' ==> UpTo(UpTo(rest, '@'), ':') == ""
  {
  }

  lemma SameStart(s: string, t: string, tail: string)
    ensures s + tail == t + tail <==> s == t
  {
    if s + tail == t + tail {
      assert |s| == |t|;
      assert (s + tail)[..|s|] == s && (t + tail)[..|t|] == t;
    }
  }

  lemma PlainHosts()
    ensures TrimRight("a", '/') == "a" && TrimRight("b", '/') == "b"
  {
  }

  lemma HostIsIgnored(scheme: string, user: string, password: string, host1: string, host2: string)
    requires '?' !in scheme && '?' !in user && '?' in password
    ensures SanitizeDSN(scheme + (user + ":" + password + "@" + host1)) ==
      SanitizeDSN(scheme + (user + ":" + password + "@" + host2))
  {
    hide SanitizeDSN;
    AfterShrinks(password, '?');
    var shown, cut := UpTo(password, '?'), After(password, '?');
    var address := scheme + (user + ":" + shown);
    assert scheme + (user + ":" + password + "@" + host1) == address + ("?" + (cut + "@" + host1));
    assert scheme + (user + ":" + password + "@" + host2) == address + ("?" + (cut + "@" + host2));
    NothingAfterQuestion(address, cut + "@" + host1);
    NothingAfterQuestion(address, cut + "@" + host2);
  }

  lemma TrimmedAddress(scheme: string, credentials: string, host: string)
    requires scheme == "" || scheme == "mongodb://"
    requires scheme == "" ==> !("mongodb://" <= credentials + "@" + host)
    ensures TrimPrefix(TrimRight(scheme + (credentials + "@" + host), '/'),
                       "mongodb://") == credentials + "@" + TrimRight(host, '/')
  {
    hide TrimRight;
    var head := scheme + (credentials + "@");
    assert scheme + (credentials + "@" + host) == head + host;
    TrimRightPast(head, host, '/');
    assert head + TrimRight(host, '/') == scheme + (credentials + "@" + TrimRight(host, '/'));
    if scheme == "" {
      NoScheme(credentials + "@", host);
    }
    Unprefixed(scheme, credentials + "@" + TrimRight(host, '/'));
  }

  lemma Unprefixed(scheme: string, rest: string)
    requires scheme == "mongodb://" || (scheme == "" && !("mongodb://" <= rest))
    ensures TrimPrefix(scheme + rest, "mongodb://") == rest
  {
    if scheme == "" {
      assert scheme + rest == rest;
    } else {
      assert (scheme + rest)[|scheme|..] == rest;
    }
  }

  lemma {:induction false} TrimRightIsPrefix(s: string, c: char)
    ensures TrimRight(s, c) <= s
  {
    if s != [] && s[|s| - 1] == c {
      TrimRightIsPrefix(s[..|s| - 1], c);
    }
  }

  lemma NoScheme(credentials: string, host: string)
    requires !("mongodb://" <= credentials + host)
    ensures !("mongodb://" <= credentials + TrimRight(host, '/'))
  {
    TrimRightIsPrefix(host, '/');
    assert credentials + TrimRight(host, '/') <= credentials + host;
  }

  /** Without the scheme, only a user named like it, with two slashes to begin the password, looks like it. */
  lemma SchemeIsMadeUp(user: string, password: string, host: string)
    requires ':' !in user
    ensures "mongodb://" <= user + ":" + password + "@" + host <==> MakesUpScheme(user, password)
  {
    var dsn, rest := user + ":" + password + "@" + host, password + "@" + host;
    assert dsn == user + [':'] + rest;
    assert "mongodb://" == "mongodb" + [':'] + "//";
    if "mongodb" + [':'] + "//" <= dsn {
      SplitPrefix("mongodb", "//", user, rest, ':');
      assert rest[0] == '/' && rest[1] == '/';
    }
    if MakesUpScheme(user, password) {
      assert password[0] == '/' && password[1] == '/';
      assert rest[..2] == "//";
      assert dsn[..10] == "mongodb" + [':'] + rest[..2];
    }
  }

  // ---------- PostgreSQL ----------

  datatype DSN = DSN(user: string, password: string, host: string, port: string, sslMode: string)
  {
    predicate HasCredentials() { user != "" || password != "" }

    function Credentials(): string {
      if HasCredentials() then user + Optional(":", password) + "@" else ""
    }

    /** Where the server listens. */
    function Address(): string { host + Optional(":", port) + Database() }

    function Text(): string { Scheme() + Credentials() + Address() + Options(sslMode) }
  }

  function Scheme(): string { "postgresql" + ":" + "//" }
  function Database(): string { "/postgres" }
  function Options(sslMode: string): string { "?sslmode=" + if sslMode == "" then "disable" else sslMode }
  function Optional(separator: string, part: string): string { if part == "" then "" else separator + part }

  /** Without a mode, the data source is that with encryption switched off; a mode ends the data source as it is. */
  lemma ModeIsDisabled(d: DSN)
    ensures d.sslMode == "" ==> d.Text() == d.(sslMode := "disable").Text()
    ensures d.sslMode != "" ==> HasSuffix(d.Text(), "=" + d.sslMode)
  {
    hide Scheme, Database, Optional;
    var before := Scheme() + d.Credentials() + d.Address();
    if d.sslMode != "" {
      assert d.Text() == before + "?sslmode" + ("=" + d.sslMode);
    }
  }

  method WriteCredentials(d: DSN, buf0: string) returns (buf: string)
    ensures buf == buf0 + d.Credentials()
  {
    buf := buf0;
    if |d.user| > 0 { buf := buf + d.user; }
    if |d.password| > 0 { buf := buf + ":"; buf := buf + d.password; }
    assert buf == buf0 + (d.user + Optional(":", d.password));
    if |d.user| > 0 || |d.password| > 0 { buf := buf + "@"; }
  }

  method WriteAddress(d: DSN, buf0: string) returns (buf: string)
    ensures buf == buf0 + d.Address()
  {
    hide Database;
    buf := buf0;
    if |d.host| > 0 { buf := buf + d.host; }
    if |d.port| > 0 { buf := buf + ":"; buf := buf + d.port; }
    assert buf == buf0 + (d.host + Optional(":", d.port));
    buf := buf + Database();
  }

  /** DSN.String, piece by piece into a buffer. */
  method String(d: DSN) returns (buf: string)
    ensures buf == d.Text()
  {
    hide Scheme, Options, DSN.Credentials, DSN.Address;
    buf := Scheme();
    buf := WriteCredentials(d, buf);
    buf := WriteAddress(d, buf);
    buf := buf + Options(d.sslMode);
  }

  lemma RegroupDsn(name: string, slashes: string, credentials: string, address: string)
    ensures name + ":" + slashes + (credentials + "@") + address == name + ":" + (slashes + credentials) + "@" + address
  {
  }

  /** What is stored for a PostgreSQL server depends on its address and on whether there are credentials. */
  lemma PostgresIsSanitized(d: DSN)
    requires '?' !in d.user && '?' !in d.password && '?' !in d.host && '?' !in d.port
    requires '@' !in d.host && '@' !in d.port
    ensures SanitizeDSN(d.Text()) ==
      if d.HasCredentials() then "postgresql" + ":***@" + d.Address() else Scheme() + d.Address()
  {
    hide HidePassword, AddressOf, DSN.Address, DSN.Text, Optional;
    ShownOfPostgres(d);
    AddressIsClean(d);
    if d.HasCredentials() {
      RegroupDsn("postgresql", "//", d.user + Optional(":", d.password), d.Address());
      HidesPassword("postgresql", "//" + (d.user + Optional(":", d.password)), d.Address());
    } else {
      assert Scheme() + d.Credentials() == Scheme();
      NothingToHide(Scheme() + d.Address());
    }
  }

  lemma NothingToHide(address: string)
    requires '@' !in address
    ensures HidePassword(address) == address
  {
  }

  lemma AddressIsClean(d: DSN)
    requires '@' !in d.host && '@' !in d.port
    ensures '@' !in d.Address() && '@' !in Scheme() + d.Address()
  {
    assert '@' !in Optional(":", d.port) && '@' !in Database() && '@' !in Scheme();
  }

  /** Options go, and nothing else. */
  lemma ShownOfPostgres(d: DSN)
    requires '?' !in d.user && '?' !in d.password && '?' !in d.host && '?' !in d.port
    ensures AddressOf(d.Text()) == Scheme() + d.Credentials() + d.Address()
  {
    var shown := Scheme() + d.Credentials() + d.Address();
    assert '?' !in Scheme() && '?' !in d.Credentials() && '?' !in d.Address();
    hide TrimRight, Split, DSN.Credentials, DSN.Address;
    assert Options(d.sslMode)[0] == '?';
    Shown(shown, Options(d.sslMode));
    EndsWithName(d, Scheme() + d.Credentials());
    assert shown[0] == 'p' && "mongodb://"[0] == 'm';
  }

  lemma EndsWithName(d: DSN, before: string)
    ensures TrimRight(before + d.Address(), '/') == before + d.Address()
  {
    var s := before + d.Address();
    assert s[|s| - 1] == 's';
  }
}
