/** The credential gate: configured account/password from the environment, the Basic
    Authorization header (`readBasicAuth`) and the `checkMkAuth` middleware. */
module Auth {
  import opened Values
  import opened Fields

  const BasicPrefix: string := "Basic "

  // ---------------------------------------------------------------------------
  // String.prototype.split with a one-character separator, and its inverse

  /** `s.split(sep)`: the pieces between separators, in order; never empty. */
  function SplitOn(s: string, sep: char): (parts: seq<string>)
    ensures |parts| >= 1
    ensures forall i :: 0 <= i < |parts| ==> sep !in parts[i]
  {
    if s == [] then [""]
    else
      var rest := SplitOn(s[1..], sep);
      if s[0] == sep then [""] + rest
      else [[s[0]] + rest[0]] + rest[1..]
  }

  /** `parts.join(sep)`. */
  function Join(parts: seq<string>, sep: char): string
    requires |parts| >= 1
  {
    if |parts| == 1 then parts[0] else parts[0] + [sep] + Join(parts[1..], sep)
  }

  /** Joining the pieces of a split gives back the string. */
  lemma {:induction false} JoinSplit(s: string, sep: char)
    ensures Join(SplitOn(s, sep), sep) == s
  {
    if s != [] {
      var rest := SplitOn(s[1..], sep);
      JoinSplit(s[1..], sep);
      if s[0] == sep {
        assert ([""] + rest)[1..] == rest;
      } else {
        var parts := [[s[0]] + rest[0]] + rest[1..];
        if |rest| > 1 {
          assert parts[1..] == rest[1..];
        }
        assert Join(parts, sep) == [s[0]] + Join(rest, sep);
      }
    }
  }

  /** A string without the separator splits into itself. */
  lemma {:induction false} SplitNoSeparator(u: string, sep: char)
    requires sep !in u
    ensures SplitOn(u, sep) == [u]
  {
    if u != [] {
      SplitNoSeparator(u[1..], sep);
      assert [u[0]] + u[1..] == u;
    }
  }

  /** The first piece ends at the first separator. */
  lemma {:induction false} SplitAtFirstSeparator(u: string, sep: char, rest: string)
    requires sep !in u
    ensures SplitOn(u + [sep] + rest, sep) == [u] + SplitOn(rest, sep)
  {
    var s := u + [sep] + rest;
    if u == [] {
      assert s[0] == sep && s[1..] == rest;
    } else {
      assert s[0] == u[0];
      assert s[1..] == u[1..] + [sep] + rest;
      SplitAtFirstSeparator(u[1..], sep, rest);
      assert [u[0]] + u[1..] == u;
    }
  }

  /** Splitting a join of separator-free pieces gives back the pieces. */
  lemma {:induction false} SplitJoin(parts: seq<string>, sep: char)
    requires |parts| >= 1
    requires forall i :: 0 <= i < |parts| ==> sep !in parts[i]
    ensures SplitOn(Join(parts, sep), sep) == parts
  {
    if |parts| == 1 {
      SplitNoSeparator(parts[0], sep);
    } else {
      SplitJoin(parts[1..], sep);
      SplitAtFirstSeparator(parts[0], sep, Join(parts[1..], sep));
      assert [parts[0]] + parts[1..] == parts;
    }
  }

  // ---------------------------------------------------------------------------
  // readBasicAuth

  /** What readBasicAuth returns; None stands for null and for undefined. */
  datatype BasicCredentials = BasicCredentials(account: Option<string>, password: Option<string>)

  predicate StartsWith(s: string, t: string)
  {
    |t| <= |s| && s[..|t|] == t
  }

  /** The Authorization header is Basic: present, non-empty and starting with "Basic ". */
  predicate IsBasic(authorization: Option<string>)
  {
    Truthy(authorization) && StartsWith(authorization.value, BasicPrefix)
  }

  /** readBasicAuth: for a Basic header, split the decoded text at ':' and take the first
      two pieces as account and password (the password is undefined without a ':').
      `decode` is Node's base64-then-UTF-8 decoding, which is not part of this model. */
  function ReadBasicAuth(authorization: Option<string>, decode: string -> string): (c: BasicCredentials)
    ensures c.account.Some? <==> IsBasic(authorization)
    ensures c.password.Some? ==> c.account.Some?
    ensures c.account.Some? ==> ':' !in c.account.value
    ensures c.password.Some? ==> ':' !in c.password.value
  {
    if !IsBasic(authorization) then BasicCredentials(None, None)
    else
      var fields := SplitOn(decode(authorization.value[|BasicPrefix|..]), ':');
      BasicCredentials(Some(fields[0]), if |fields| > 1 then Some(fields[1]) else None)
  }

  /** Without a Basic header neither value is read; with one, the account is the decoded
      text up to its first ':' (all of it when there is none) and the password is present
      exactly when the text has a ':', in which case it runs from the first ':' up to the
      second one or the end. */
  lemma BasicAuthFields(authorization: Option<string>, decode: string -> string)
    ensures !IsBasic(authorization) ==> ReadBasicAuth(authorization, decode) == BasicCredentials(None, None)
    ensures IsBasic(authorization) ==>
              var text := decode(authorization.value[|BasicPrefix|..]);
              var c := ReadBasicAuth(authorization, decode);
              && c.account.Some?
              && ':' !in c.account.value
              && (c.password.None? <==> ':' !in text)
              && (c.password.None? ==> text == c.account.value)
              && (c.password.Some? ==>
                    ':' !in c.password.value
                    && StartsWith(text, c.account.value + [':'] + c.password.value)
                    && var n := |c.account.value| + 1 + |c.password.value|;
                       n == |text| || text[n] == ':')
  {
    if IsBasic(authorization) {
      var text := decode(authorization.value[|BasicPrefix|..]);
      var fields := SplitOn(text, ':');
      JoinSplit(text, ':');
      if |fields| == 1 {
        assert text == fields[0];
      } else {
        var tail := Join(fields[1..], ':');
        assert text == fields[0] + [':'] + tail;
        assert ':' in text by { assert text[|fields[0]|] == ':'; }
        if |fields| > 2 {
          assert fields[1..][1..] == fields[2..];
          assert tail == fields[1] + [':'] + Join(fields[2..], ':');
          assert text == fields[0] + [':'] + fields[1] + [':'] + Join(fields[2..], ':');
          assert text[|fields[0]| + 1 + |fields[1]|] == ':';
        }
        assert text[..|fields[0]| + 1 + |fields[1]|] == fields[0] + [':'] + fields[1];
      }
    }
  }

  /** Section 2 of RFC 7617 makes the password everything after the first ':'. Here it is
      only the text up to the next ':': with "user:pass" decoded from the header, the
      password read is "pass" exactly when "pass" has no ':'. */
  lemma BasicPasswordStopsAtSecondColon(authorization: Option<string>, decode: string -> string, user: string, pass: string)
    requires IsBasic(authorization)
    requires decode(authorization.value[|BasicPrefix|..]) == user + ":" + pass
    requires ':' !in user
    ensures ReadBasicAuth(authorization, decode).account == Some(user)
    ensures ReadBasicAuth(authorization, decode).password == Some(pass) <==> ':' !in pass
  {
    SplitAtFirstSeparator(user, ':', pass);
    assert user + ":" + pass == user + [':'] + pass;
    var rest := SplitOn(pass, ':');
    if ':' !in pass {
      SplitNoSeparator(pass, ':');
    } else {
      assert ':' !in rest[0];
      assert rest[0] != pass;
    }
  }

  // ---------------------------------------------------------------------------
  // Configured credentials (environment) and checkMkAuth

  datatype Credentials = Credentials(account: string, password: string)

  const AccountEnvNames: seq<string> := ["AUTH_ACCOUNT", "MK_AUTH_ACCOUNT", "CONTA"]
  const PasswordEnvNames: seq<string> := ["AUTH_PASSWORD", "MK_AUTH_PASSWORD", "SENHA"]

  /** The environment variables `names`, in order, each undefined when unset. */
  function EnvValues(env: map<string, string>, names: seq<string>): seq<Option<string>>
  {
    seq(|names|, i requires 0 <= i < |names| => Get(env, names[i]))
  }

  /** The first non-empty of the variables `names` is "" exactly when none is set to a
      non-empty string, and is otherwise the value of one of them. */
  lemma EnvValuesFrom(env: map<string, string>, names: seq<string>)
    ensures FirstTruthy(EnvValues(env, names)) == "" <==> forall i :: 0 <= i < |names| ==> !Truthy(Get(env, names[i]))
    ensures FirstTruthy(EnvValues(env, names)) != "" ==>
              exists i :: 0 <= i < |names| && Get(env, names[i]) == Some(FirstTruthy(EnvValues(env, names)))
  {
    var vs := EnvValues(env, names);
    FirstTruthyFirst(vs);
    assert forall i :: 0 <= i < |names| ==> vs[i] == Get(env, names[i]);
    var v := FirstTruthy(vs);
    if v != "" {
      var i :| 0 <= i < |vs| && vs[i] == Some(v);
      assert Get(env, names[i]) == Some(v);
    }
  }

  /** AUTH_ACCOUNT / AUTH_PASSWORD: the first non-empty of the three variable names, or "". */
  function ConfiguredCredentials(env: map<string, string>): (cfg: Credentials)
    ensures cfg.account == "" <==> forall i :: 0 <= i < |AccountEnvNames| ==> !Truthy(Get(env, AccountEnvNames[i]))
    ensures cfg.password == "" <==> forall i :: 0 <= i < |PasswordEnvNames| ==> !Truthy(Get(env, PasswordEnvNames[i]))
    ensures cfg.account != "" ==>
              exists i :: 0 <= i < |AccountEnvNames| && Get(env, AccountEnvNames[i]) == Some(cfg.account)
    ensures cfg.password != "" ==>
              exists i :: 0 <= i < |PasswordEnvNames| && Get(env, PasswordEnvNames[i]) == Some(cfg.password)
  {
    EnvValuesFrom(env, AccountEnvNames);
    EnvValuesFrom(env, PasswordEnvNames);
    Credentials(FirstTruthy(EnvValues(env, AccountEnvNames)), FirstTruthy(EnvValues(env, PasswordEnvNames)))
  }

  /** Each configured value comes from the first of its three variables that is set to a
      non-empty string, in the listed order, and is "" when none is. */
  lemma ConfiguredFallback(env: map<string, string>, names: seq<string>)
    requires names == AccountEnvNames || names == PasswordEnvNames
    ensures var v := FirstTruthy(EnvValues(env, names));
            && (Truthy(Get(env, names[0])) ==> v == env[names[0]])
            && (!Truthy(Get(env, names[0])) && Truthy(Get(env, names[1])) ==> v == env[names[1]])
            && (!Truthy(Get(env, names[0])) && !Truthy(Get(env, names[1])) && Truthy(Get(env, names[2])) ==> v == env[names[2]])
            && (!Truthy(Get(env, names[0])) && !Truthy(Get(env, names[1])) && !Truthy(Get(env, names[2])) ==> v == "")
  {
    var vs := EnvValues(env, names);
    FirstTruthyFirst(vs);
    assert vs[0] == Get(env, names[0]) && vs[1] == Get(env, names[1]) && vs[2] == Get(env, names[2]);
  }

  /** Account sources, in priority order: Basic, headers conta/account, body
      login/conta/account, query login/conta/account. The body is the one parsed before
      multer runs. */
  function AccountCandidates(basic: BasicCredentials, req: Request): seq<Option<string>>
  {
    var body := BodyBeforeMulter(req);
    [basic.account, Get(req.headers, "conta"), Get(req.headers, "account"),
     StringAt(body, "login"), StringAt(body, "conta"), StringAt(body, "account"),
     StringAt(req.query, "login"), StringAt(req.query, "conta"), StringAt(req.query, "account")]
  }

  /** Password sources, in priority order: Basic, headers senha/password, body
      pass/senha/password, query pass/senha/password. */
  function PasswordCandidates(basic: BasicCredentials, req: Request): seq<Option<string>>
  {
    var body := BodyBeforeMulter(req);
    [basic.password, Get(req.headers, "senha"), Get(req.headers, "password"),
     StringAt(body, "pass"), StringAt(body, "senha"), StringAt(body, "password"),
     StringAt(req.query, "pass"), StringAt(req.query, "senha"), StringAt(req.query, "password")]
  }

  /** The account and password checkMkAuth extracts from a request. */
  function PresentedCredentials(req: Request, decode: string -> string): (r: Credentials)
    ensures var basic := ReadBasicAuth(Get(req.headers, "authorization"), decode);
            && (r.account != "" ==> Some(r.account) in AccountCandidates(basic, req))
            && (r.password != "" ==> Some(r.password) in PasswordCandidates(basic, req))
  {
    var basic := ReadBasicAuth(Get(req.headers, "authorization"), decode);
    Credentials(FirstTruthy(AccountCandidates(basic, req)), FirstTruthy(PasswordCandidates(basic, req)))
  }

  /** Nothing configured: the gate lets everything through. */
  predicate AuthDisabled(cfg: Credentials)
  {
    cfg.account == "" && cfg.password == ""
  }

  /** checkMkAuth: true calls `next()`, false answers 401 'unauthorized'. */
  predicate CheckMkAuth(cfg: Credentials, req: Request, decode: string -> string)
    ensures AuthDisabled(cfg) ==> CheckMkAuth(cfg, req, decode)
    ensures !AuthDisabled(cfg) && CheckMkAuth(cfg, req, decode) ==>
              var basic := ReadBasicAuth(Get(req.headers, "authorization"), decode);
              && (cfg.account == "" || Some(cfg.account) in AccountCandidates(basic, req))
              && (cfg.password == "" || Some(cfg.password) in PasswordCandidates(basic, req))
  {
    AuthDisabled(cfg) || PresentedCredentials(req, decode) == cfg
  }

  /** With a configured pair whose parts have no ':', a Basic header carrying
      "account:password" passes, whatever headers, body and query also carry. */
  lemma BasicAuthAccepted(cfg: Credentials, req: Request, decode: string -> string)
    requires cfg.account != "" && cfg.password != ""
    requires ':' !in cfg.account && ':' !in cfg.password
    requires IsBasic(Get(req.headers, "authorization"))
    requires decode(Get(req.headers, "authorization").value[|BasicPrefix|..]) == cfg.account + ":" + cfg.password
    ensures CheckMkAuth(cfg, req, decode)
  {
    var authorization := Get(req.headers, "authorization");
    BasicPasswordStopsAtSecondColon(authorization, decode, cfg.account, cfg.password);
    var basic := ReadBasicAuth(authorization, decode);
    FirstTruthyFirst(AccountCandidates(basic, req));
    FirstTruthyFirst(PasswordCandidates(basic, req));
  }

  /** A configured password containing ':' can never be matched while the request carries
      a Basic header with a non-empty password field: that field stops at a ':'. */
  lemma ColonPasswordRejectedWithBasic(cfg: Credentials, req: Request, decode: string -> string)
    requires ':' in cfg.password
    requires Truthy(ReadBasicAuth(Get(req.headers, "authorization"), decode).password)
    ensures !CheckMkAuth(cfg, req, decode)
  {
    var authorization := Get(req.headers, "authorization");
    var basic := ReadBasicAuth(authorization, decode);
    BasicAuthFields(authorization, decode);
    FirstTruthyFirst(PasswordCandidates(basic, req));
    assert PresentedCredentials(req, decode).password == basic.password.value;
  }

  /** When credentials are configured, a multipart request that carries them only as form
      fields is refused: the gate runs before multer and sees an empty body. */
  lemma MultipartFormCredentialsIgnored(cfg: Credentials, req: Request, decode: string -> string)
    requires !AuthDisabled(cfg)
    requires req.payload.Multipart?
    requires forall k :: k in req.headers ==> k !in {"authorization", "conta", "account", "senha", "password"}
    requires req.query == map[]
    ensures !CheckMkAuth(cfg, req, decode)
  {
    var basic := ReadBasicAuth(Get(req.headers, "authorization"), decode);
    FirstTruthyFirst(AccountCandidates(basic, req));
    FirstTruthyFirst(PasswordCandidates(basic, req));
  }
}
