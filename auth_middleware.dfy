/** The request gates of `middleware/auth.ts`: the required-token gate, the
    optional-token gate and the admin gate.  Each gate is a function from the
    `Authorization` header (and the token verifier, a parameter standing for
    `AuthService.verifyAccessToken`) to what happens to the request: an error
    response, or one call to `next` with `req.user` as it is then. */
module Middleware {
  import opened Common
  import opened Usuarios

  const MSG_SIN_TOKEN := "Token no proporcionado"
  const MSG_TOKEN_INVALIDO := "Token inválido o expirado"
  const MSG_NO_AUTENTICADO := "No autenticado"
  const MSG_NO_ADMIN := "Acceso denegado. Se requiere rol de administrador"

  /** `Rechazar`: the gate answers with this status and message and does not
      call `next`.  `Siguiente`: the gate calls `next` exactly once, with
      `req.user` equal to `user`. */
  datatype Resultado = Rechazar(status: int, message: string) | Siguiente(user: Option<JwtPayload>)

  // ---------------------------------------------------------------------
  // Header parsing
  // ---------------------------------------------------------------------

  /** JS `s.split(' ')`: the fields between single spaces, empty ones included. */
  function Split(s: string): (r: seq<string>)
    ensures |r| >= 1
    ensures forall f :: f in r ==> ' ' !in f
  {
    if s == [] then [""]
    else
      var rest := Split(s[1..]);
      if s[0] == ' ' then [""] + rest
      else [[s[0]] + rest[0]] + rest[1..]
  }

  /** JS `fields.join(' ')`. */
  function JoinConEspacios(fs: seq<string>): string
    requires |fs| >= 1
  {
    fs[0] + (if |fs| == 1 then "" else " " + JoinConEspacios(fs[1..]))
  }

  /** Splitting on spaces loses nothing: joining the fields back gives the header. */
  lemma {:induction false} SplitJoin(s: string)
    ensures JoinConEspacios(Split(s)) == s
  {
    if s != [] {
      var rest := Split(s[1..]);
      SplitJoin(s[1..]);
      if s[0] == ' ' {
        assert Split(s) == [""] + rest;
        assert ([""] + rest)[1..] == rest;
        assert s == [' '] + s[1..];
      } else {
        var fs := [[s[0]] + rest[0]] + rest[1..];
        assert Split(s) == fs;
        assert |fs| > 1 ==> fs[1..] == rest[1..];
        assert s == [s[0]] + s[1..];
      }
    }
  }

  /** The leading field of a string starting with a field free of spaces. */
  lemma {:induction false} SplitCampo(a: string, rest: string)
    requires ' ' !in a
    requires rest == [] || rest[0] == ' '
    ensures Split(a + rest)[0] == a
    ensures rest != [] ==> |Split(a + rest)| >= 2 && Split(a + rest)[1..] == Split(rest[1..])
  {
    if a == [] {
      assert a + rest == rest;
      if rest != [] {
        assert Split(rest) == [""] + Split(rest[1..]);
      }
    } else {
      assert (a + rest)[1..] == a[1..] + rest;
      assert (a + rest)[0] == a[0];
      SplitCampo(a[1..], rest);
      assert a == [a[0]] + a[1..];
    }
  }

  /** `authHeader && authHeader.split(' ')[1]`, kept only when truthy: a missing
      or empty header, a header without a space, or an empty second field all
      give no token.  The scheme word before the space is not inspected. */
  function ExtraerToken(header: Option<string>): Option<string>
  {
    if header.None? || header.value == "" then None
    else
      var campos := Split(header.value);
      if |campos| < 2 || campos[1] == "" then None else Some(campos[1])
  }

  /** `h` is a space-free word `a`, one space, a non-empty space-free token `t`,
      and then either nothing or a space followed by anything (`rest`). */
  predicate Forma(h: string, a: string, t: string, rest: string)
  {
    && h == a + " " + t + rest
    && ' ' !in a && ' ' !in t && t != ""
    && (rest == [] || rest[0] == ' ')
  }

  /** The token is exactly the non-empty text between the first space and the
      next space (or the end) of the header. */
  lemma ExtraerTokenCaracterizacion(h: string, t: string)
    ensures ExtraerToken(Some(h)) == Some(t) <==> exists a, rest :: Forma(h, a, t, rest)
  {
    if ExtraerToken(Some(h)) == Some(t) {
      var campos := Split(h);
      SplitJoin(h);
      var a := campos[0];
      var cola := JoinConEspacios(campos[1..]);
      var rest := if |campos| == 2 then "" else " " + JoinConEspacios(campos[2..]);
      assert campos[1..][1..] == campos[2..];
      assert cola == t + rest;
      assert h == a + " " + t + rest;
      assert a in campos && t in campos;
      assert ' ' !in a && ' ' !in t && t != "";
      assert rest == [] || rest[0] == ' ';
      assert Forma(h, a, t, rest);
    }
    else {
      forall a, rest | Forma(h, a, t, rest) ensures false
      {
        ExtraerTokenDeCampos(h, a, t, rest);
      }
    }
  }

  /** A header made of a space-free word, a space, a non-empty space-free token
      and then nothing or a space yields that token. */
  lemma ExtraerTokenDeCampos(h: string, a: string, t: string, rest: string)
    requires Forma(h, a, t, rest)
    ensures ExtraerToken(Some(h)) == Some(t)
  {
    assert h == a + (" " + t + rest);
    SplitCampo(a, " " + t + rest);
    assert (" " + t + rest)[1..] == t + rest;
    SplitCampo(t, rest);
    var campos := Split(h);
    assert campos[0] == a && campos[1..] == Split(t + rest);
    assert campos[1] == t;
    assert |h| > 0 && |campos| >= 2;
  }

  // ---------------------------------------------------------------------
  // Gates
  // ---------------------------------------------------------------------

  /** `authenticateToken`: no token is 401, a token the verifier refuses is 403,
      and a valid token sets `req.user` to the verifier's claims and calls `next`. */
  function AuthenticateToken(header: Option<string>, verify: string -> Option<JwtPayload>): (r: Resultado)
    ensures ExtraerToken(header).None? <==> r == Rechazar(401, MSG_SIN_TOKEN)
    ensures r == Rechazar(403, MSG_TOKEN_INVALIDO) <==>
              ExtraerToken(header).Some? && verify(ExtraerToken(header).value).None?
    ensures r.Siguiente? <==> ExtraerToken(header).Some? && verify(ExtraerToken(header).value).Some?
    ensures r.Siguiente? ==> r.user.Some? && r.user == verify(ExtraerToken(header).value)
  {
    var token := ExtraerToken(header);
    if token.None? then Rechazar(401, MSG_SIN_TOKEN)
    else
      var payload := verify(token.value);
      if payload.None? then Rechazar(403, MSG_TOKEN_INVALIDO)
      else Siguiente(payload)
  }

  /** `optionalAuth`: always calls `next`, never answers with an error, and sets
      `req.user` exactly when a token is present and valid. */
  function OptionalAuth(header: Option<string>, verify: string -> Option<JwtPayload>): (r: Resultado)
    ensures r.Siguiente?
    ensures r.user.Some? <==> ExtraerToken(header).Some? && verify(ExtraerToken(header).value).Some?
    ensures r.user.Some? ==> r.user == verify(ExtraerToken(header).value)
  {
    var token := ExtraerToken(header);
    if token.Some? && verify(token.value).Some? then Siguiente(verify(token.value))
    else Siguiente(None)
  }

  /** `requireAdmin`: 401 without a user, then 403 unless the role is admin,
      otherwise `next` with the user unchanged. */
  function RequireAdmin(user: Option<JwtPayload>): (r: Resultado)
    ensures user.None? <==> r == Rechazar(401, MSG_NO_AUTENTICADO)
    ensures r == Rechazar(403, MSG_NO_ADMIN) <==> user.Some? && user.value.rol != Admin
    ensures r.Siguiente? <==> user.Some? && user.value.rol == Admin
    ensures r.Siguiente? ==> r.user == user
  {
    if user.None? then Rechazar(401, MSG_NO_AUTENTICADO)
    else if user.value.rol != Admin then Rechazar(403, MSG_NO_ADMIN)
    else Siguiente(user)
  }

  /** The admin routes chain both gates: the request gets through exactly when
      the token is present, valid, and carries the admin role; after a passed
      `authenticateToken` the admin gate can only answer 403, never 401. */
  lemma CadenaAdmin(header: Option<string>, verify: string -> Option<JwtPayload>)
    ensures var a := AuthenticateToken(header, verify);
      a.Siguiente? ==> RequireAdmin(a.user) != Rechazar(401, MSG_NO_AUTENTICADO)
    ensures var a := AuthenticateToken(header, verify);
      (a.Siguiente? && RequireAdmin(a.user).Siguiente?) <==>
        (exists t, p :: ExtraerToken(header) == Some(t) && verify(t) == Some(p) && p.rol == Admin)
  {
  }
}
