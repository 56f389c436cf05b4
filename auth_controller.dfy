/** The HTTP handlers of `AuthController`: each validates the request body,
    calls the authentication service at most once, and maps its result to a
    status code.  The controller's single `AuthService` instance is passed in
    as `svc`. */
module AuthControl {
  import opened Common
  import opened Usuarios
  import opened Auth

  const MSG_REGISTRO_REQUERIDOS := "Email, contraseña y nombre son requeridos"
  const MSG_EMAIL_INVALIDO := "Formato de email inválido"
  const MSG_PASSWORD_CORTA := "La contraseña debe tener al menos 6 caracteres"
  const MSG_LOGIN_REQUERIDOS := "Email y contraseña son requeridos"
  const MSG_REFRESH_REQUERIDO := "Refresh token es requerido"
  const MSG_NO_AUTENTICADO := "No autenticado"
  const MSG_USUARIO_NO_ENCONTRADO := "Usuario no encontrado"

  const MIN_PASSWORD := 6

  /** The JSON body a handler sends. */
  datatype Cuerpo =
    | Error(message: string)                // { success: false, message }
    | DeAuth(auth: AuthResultado)
    | DeRefresh(refresh: RefreshResultado)
    | DeRespuesta(respuesta: Respuesta)
    | DeUsuario(usuario: UsuarioSinPassword) // { success: true, usuario }

  datatype HttpRespuesta = HttpRespuesta(status: int, cuerpo: Cuerpo)

  /** Request bodies; an absent property is `None`. */
  datatype RegisterBody = RegisterBody(email: Option<string>, password: Option<string>, nombre: Option<string>)
  datatype LoginBody = LoginBody(email: Option<string>, password: Option<string>)

  // ---------------------------------------------------------------------
  // The e-mail pattern /^[^\s@]+@[^\s@]+\.[^\s@]+$/
  // ---------------------------------------------------------------------

  /** The JS `\s` class: the ASCII white space, the Unicode space separators,
      the line and paragraph separators, and the byte-order mark. */
  predicate EsEspacio(c: char)
  {
    || c == ' ' || c == '\t' || c == '\n' || c == '\r' || c == '\U{000B}' || c == '\U{000C}'
    || c == '\U{00A0}' || c == '\U{1680}' || ('\U{2000}' <= c <= '\U{200A}')
    || c == '\U{2028}' || c == '\U{2029}' || c == '\U{202F}' || c == '\U{205F}'
    || c == '\U{3000}' || c == '\U{FEFF}'
  }

  /** `[^\s@]+`: a non-empty run of characters that are neither white space nor `@`. */
  predicate Campo(x: string)
  {
    x != "" && forall k :: 0 <= k < |x| ==> !EsEspacio(x[k]) && x[k] != '@'
  }

  /** `s` splits as `Campo @ Campo . Campo` with the `@` at `i` and the `.` at `j`. */
  predicate PartesEmail(s: string, i: int, j: int)
  {
    && 0 <= i < j < |s|
    && s[i] == '@' && s[j] == '.'
    && Campo(s[..i]) && Campo(s[i + 1..j]) && Campo(s[j + 1..])
  }

  /** What the regular expression accepts (the pattern is anchored at both ends). */
  ghost predicate CoincideEmailRegex(s: string)
  {
    exists i, j :: PartesEmail(s, i, j)
  }

  /** Index of the first occurrence of `c` in `s`. */
  function IndiceDe(s: string, c: char): (r: Option<nat>)
    ensures r.None? <==> c !in s
    ensures r.Some? ==> r.value < |s| && s[r.value] == c && c !in s[..r.value]
  {
    FindIndex(s, (x: char) => x == c)
  }

  /** A direct test of the pattern: no white space, a first `@` that is not at
      the start and has no other `@` after it, and a `.` in the domain with at
      least one character on each side. */
  function EmailValido(s: string): (r: bool)
    ensures r <==> CoincideEmailRegex(s)
  {
    var k := IndiceDe(s, '@');
    var ok :=
      && (forall m :: 0 <= m < |s| ==> !EsEspacio(s[m]))
      && k.Some? && 0 < k.value && k.value + 2 < |s|
      && '@' !in s[k.value + 1..]
      && '.' in s[k.value + 2..|s| - 1];
    EmailValidoCorrecto(s, ok);
    ok
  }

  /** Both directions of the equivalence between `EmailValido`'s test and the pattern. */
  lemma EmailValidoCorrecto(s: string, ok: bool)
    requires var k := IndiceDe(s, '@');
      ok == (&& (forall m :: 0 <= m < |s| ==> !EsEspacio(s[m]))
             && k.Some? && 0 < k.value && k.value + 2 < |s|
             && '@' !in s[k.value + 1..]
             && '.' in s[k.value + 2..|s| - 1])
    ensures ok <==> CoincideEmailRegex(s)
  {
    var k := IndiceDe(s, '@');
    if ok {
      var i := k.value;
      var dominio := s[i + 2..|s| - 1];
      var d :| 0 <= d < |dominio| && dominio[d] == '.';
      var j := i + 2 + d;
      assert s[j] == '.';
      forall m | 0 <= m < i ensures s[..i][m] != '@' {
        assert s[..i][m] in s[..i];
      }
      var cola := s[i + 1..];
      var medio := s[i + 1..j];
      var final := s[j + 1..];
      forall m | 0 <= m < |medio| ensures medio[m] != '@' {
        assert medio[m] == cola[m];
        assert cola[m] in cola;
      }
      forall m | 0 <= m < |final| ensures final[m] != '@' {
        assert final[m] == cola[m + j - i];
        assert cola[m + j - i] in cola;
      }
      assert PartesEmail(s, i, j);
    }
    if CoincideEmailRegex(s) {
      var i, j :| PartesEmail(s, i, j);
      forall m | 0 <= m < |s| ensures !EsEspacio(s[m]) {
        if m < i {
          assert s[m] == s[..i][m];
        } else if i < m < j {
          assert s[m] == s[i + 1..j][m - i - 1];
        } else if j < m {
          assert s[m] == s[j + 1..][m - j - 1];
        }
      }
      assert '@' in s;
      assert '@' !in s[..i] by {
        forall m | 0 <= m < i ensures s[..i][m] != '@' { }
      }
      assert k.value == i;
      var cola := s[i + 1..];
      assert '@' !in cola by {
        var medio := s[i + 1..j];
        var final := s[j + 1..];
        forall m | 0 <= m < |cola| ensures cola[m] != '@' {
          if i + 1 + m < j {
            assert cola[m] == medio[m];
          } else if i + 1 + m > j {
            assert cola[m] == final[m - (j - i)];
          }
        }
      }
      assert s[k.value + 2..|s| - 1][j - i - 2] == '.';
    }
  }

  // ---------------------------------------------------------------------
  // Body validation
  // ---------------------------------------------------------------------

  /** JavaScript's `length`: UTF-16 code units, two for a character outside
      the Basic Multilingual Plane. */
  function LongitudUtf16(s: string): (n: nat)
    ensures |s| <= n <= 2 * |s|
    ensures (forall i :: 0 <= i < |s| ==> s[i] as int < 0x10000) ==> n == |s|
  {
    if s == [] then 0
    else (if s[0] as int < 0x10000 then 1 else 2) + LongitudUtf16(s[1..])
  }

  /** Three emoji make a password of length 6 in JavaScript, so `register`
      lets it through, although it holds only three characters. */
  lemma TresEmojiBastan(email: string, nombre: string)
    requires CoincideEmailRegex(email) && nombre != ""
    ensures var clave := "\U{1F600}\U{1F600}\U{1F600}";
      && |clave| == 3 && LongitudUtf16(clave) == 6
      && ErrorRegistro(RegisterBody(Some(email), Some(clave), Some(nombre))).None?
  {
    var clave := "\U{1F600}\U{1F600}\U{1F600}";
    assert clave[1..][1..][1..] == [];
  }

  /** The 400 message `register` answers before calling the service, in the
      order the handler checks: missing fields, e-mail pattern, password length. */
  function ErrorRegistro(body: RegisterBody): (r: Option<string>)
    ensures r == Some(MSG_REGISTRO_REQUERIDOS) <==>
              !Truthy(body.email) || !Truthy(body.password) || !Truthy(body.nombre)
    ensures r == Some(MSG_EMAIL_INVALIDO) <==>
              && Truthy(body.email) && Truthy(body.password) && Truthy(body.nombre)
              && !CoincideEmailRegex(body.email.value)
    ensures r == Some(MSG_PASSWORD_CORTA) <==>
              && Truthy(body.email) && Truthy(body.password) && Truthy(body.nombre)
              && CoincideEmailRegex(body.email.value) && LongitudUtf16(body.password.value) < MIN_PASSWORD
    ensures r.None? <==>
              && Truthy(body.email) && Truthy(body.nombre) && body.password.Some?
              && CoincideEmailRegex(body.email.value) && LongitudUtf16(body.password.value) >= MIN_PASSWORD
  {
    if !Truthy(body.email) || !Truthy(body.password) || !Truthy(body.nombre) then Some(MSG_REGISTRO_REQUERIDOS)
    else if !EmailValido(body.email.value) then Some(MSG_EMAIL_INVALIDO)
    else if LongitudUtf16(body.password.value) < MIN_PASSWORD then Some(MSG_PASSWORD_CORTA)
    else None
  }

  // ---------------------------------------------------------------------
  // Handlers
  // ---------------------------------------------------------------------

  /** `POST /api/auth/register`: 400 with the validation message and no write,
      otherwise the service's result with 201 on success and 400 when the
      e-mail is taken. */
  method Register(svc: AuthService, body: RegisterBody, nuevoToken: string, now: int) returns (res: HttpRespuesta)
    requires svc.Valid()
    modifies svc`usuarios, svc`refreshTokens, svc`nextUsuarioId
    ensures svc.Valid()
    ensures ErrorRegistro(body).Some? ==>
      && res == HttpRespuesta(400, Error(ErrorRegistro(body).value))
      && svc.usuarios == old(svc.usuarios) && svc.refreshTokens == old(svc.refreshTokens)
      && svc.nextUsuarioId == old(svc.nextUsuarioId)
    ensures ErrorRegistro(body).None? ==>
      && res.cuerpo.DeAuth?
      && (res.status == 201 <==> res.cuerpo.auth.success)
      && (res.status == 400 <==> !res.cuerpo.auth.success)
      && (res.cuerpo.auth.success <==> forall u :: u in old(svc.usuarios) ==> u.email != body.email.value)
      && (res.cuerpo.auth.success ==>
            |svc.usuarios| == |old(svc.usuarios)| + 1 && svc.usuarios[|old(svc.usuarios)|].email == body.email.value)
  {
    var error := ErrorRegistro(body);
    if error.Some? {
      res := HttpRespuesta(400, Error(error.value));
      return;
    }
    var resultado := svc.Register(RegisterData(body.email.value, body.password.value, body.nombre.value), nuevoToken, now);
    res := HttpRespuesta(if resultado.success then 201 else 400, DeAuth(resultado));
  }

  /** The 400 message `login` answers before calling the service. */
  function ErrorLogin(body: LoginBody): (r: Option<string>)
    ensures r.Some? <==> !Truthy(body.email) || !Truthy(body.password)
    ensures r.Some? ==> r.value == MSG_LOGIN_REQUERIDOS
  {
    if !Truthy(body.email) || !Truthy(body.password) then Some(MSG_LOGIN_REQUERIDOS) else None
  }

  /** `POST /api/auth/login`: 400 on missing fields; otherwise 200 exactly when
      an active user with that e-mail has a matching password, else 401. */
  method Login(svc: AuthService, body: LoginBody, nuevoToken: string, now: int) returns (res: HttpRespuesta)
    requires svc.Valid()
    modifies svc`usuarios, svc`refreshTokens
    ensures svc.Valid()
    ensures ErrorLogin(body).Some? ==>
      && res == HttpRespuesta(400, Error(MSG_LOGIN_REQUERIDOS))
      && svc.usuarios == old(svc.usuarios) && svc.refreshTokens == old(svc.refreshTokens)
    ensures ErrorLogin(body).None? ==>
      && res.cuerpo.DeAuth?
      && (res.status == 200 || res.status == 401)
      && (res.status == 200 <==> res.cuerpo.auth.success)
      && (res.status == 200 <==>
            exists u :: u in old(svc.usuarios) && u.email == body.email.value && u.activo
                        && svc.cripto.compare(body.password.value, u.password_hash))
  {
    var error := ErrorLogin(body);
    if error.Some? {
      res := HttpRespuesta(400, Error(error.value));
      return;
    }
    var resultado := svc.Login(LoginCredentials(body.email.value, body.password.value), nuevoToken, now);
    res := HttpRespuesta(if resultado.success then 200 else 401, DeAuth(resultado));
  }

  /** `POST /api/auth/refresh`: 400 without a token; otherwise 200 exactly when
      a stored, unexpired token of an active user matches, else 401. */
  function Refresh(svc: AuthService, refreshToken: Option<string>, now: int): (res: HttpRespuesta)
    reads svc
    ensures !Truthy(refreshToken) <==> res == HttpRespuesta(400, Error(MSG_REFRESH_REQUERIDO))
    ensures Truthy(refreshToken) ==>
      && res.cuerpo.DeRefresh?
      && (res.status == 200 || res.status == 401)
      && (res.status == 200 <==>
            exists t, u :: t in svc.refreshTokens && u in svc.usuarios && Vigente(t, refreshToken.value, now)
                           && u.id == t.usuario_id && u.activo)
      && (res.status == 401 ==> res.cuerpo.refresh == RefreshResultado(false, None, MSG_REFRESH_INVALIDO))
  {
    if !Truthy(refreshToken) then HttpRespuesta(400, Error(MSG_REFRESH_REQUERIDO))
    else
      var resultado := svc.RefreshAccessToken(refreshToken.value, now);
      HttpRespuesta(if resultado.success then 200 else 401, DeRefresh(resultado))
  }

  /** `POST /api/auth/logout`: 400 without a token; otherwise the token's rows
      are deleted and the answer is 200, since the service always succeeds. */
  method Logout(svc: AuthService, refreshToken: Option<string>) returns (res: HttpRespuesta)
    modifies svc`refreshTokens
    ensures !Truthy(refreshToken) ==>
      res == HttpRespuesta(400, Error(MSG_REFRESH_REQUERIDO)) && svc.refreshTokens == old(svc.refreshTokens)
    ensures Truthy(refreshToken) ==>
      && res == HttpRespuesta(200, DeRespuesta(Respuesta(true, MSG_LOGOUT_OK)))
      && svc.refreshTokens == Filter(old(svc.refreshTokens), (t: RefreshTokenFila) => t.token != refreshToken.value)
  {
    if !Truthy(refreshToken) {
      res := HttpRespuesta(400, Error(MSG_REFRESH_REQUERIDO));
      return;
    }
    var resultado := svc.Logout(refreshToken.value);
    res := HttpRespuesta(if resultado.success then 200 else 400, DeRespuesta(resultado));
  }

  /** `GET /api/auth/me`: 401 when no gate set `req.user`, 404 when its id
      matches no user, otherwise 200 with that user (active or not) without
      its password hash. */
  function Me(svc: AuthService, user: Option<JwtPayload>): (res: HttpRespuesta)
    reads svc
    ensures user.None? <==> res == HttpRespuesta(401, Error(MSG_NO_AUTENTICADO))
    ensures res == HttpRespuesta(404, Error(MSG_USUARIO_NO_ENCONTRADO)) <==>
              user.Some? && forall u :: u in svc.usuarios ==> u.id != user.value.userId
    ensures res.status == 200 <==> user.Some? && exists u :: u in svc.usuarios && u.id == user.value.userId
    ensures res.status == 200 ==>
      exists u ::
        && u in svc.usuarios && u.id == user.value.userId
        && res.cuerpo == DeUsuario(SinPassword(u))
  {
    if user.None? then HttpRespuesta(401, Error(MSG_NO_AUTENTICADO))
    else
      var usuario := svc.GetUserById(user.value.userId);
      if usuario.None? then HttpRespuesta(404, Error(MSG_USUARIO_NO_ENCONTRADO))
      else HttpRespuesta(200, DeUsuario(usuario.value))
  }
}
