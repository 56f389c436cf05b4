/** The session/token lifecycle of `AuthService`: registration, login, access
    token refresh, logout and the expiry sweep, over the `usuarios` and
    `refresh_tokens` tables.  Password hashing and token signing are foreign
    (bcrypt, jsonwebtoken) and enter as the functions of a `Cripto` value; the
    random refresh token and the clock enter as parameters. */
module Auth {
  import opened Common
  import opened Usuarios

  const SALT_ROUNDS: nat := 10
  /** `expiresIn: '15m'` of the access token, in milliseconds. */
  const ACCESS_TOKEN_EXPIRES_MS := 15 * 60 * 1000
  const REFRESH_TOKEN_EXPIRES_DAYS := 7
  const MS_POR_DIA := 24 * 60 * 60 * 1000
  /** The column default of `usuarios.activo`, which the INSERT of `register`
      leaves out. */
  const ACTIVO_POR_DEFECTO := true

  const MSG_EMAIL_DUPLICADO := "El email ya está registrado"
  const MSG_REGISTRO_OK := "Usuario registrado exitosamente"
  const MSG_CREDENCIALES := "Credenciales inválidas"
  const MSG_LOGIN_OK := "Login exitoso"
  const MSG_REFRESH_INVALIDO := "Refresh token inválido o expirado"
  const MSG_REFRESH_OK := "Token refrescado exitosamente"
  const MSG_LOGOUT_OK := "Logout exitoso"

  /** The foreign primitives, left uninterpreted.
      - hash(password, rounds): bcrypt.hash (its random salt is part of the abstraction);
      - compare(password, hash): bcrypt.compare;
      - sign(payload, expiresAt): jwt.sign with the configured secret, valid until `expiresAt`;
      - verify(token, now): jwt.verify at instant `now`, `None` on any failure. */
  datatype Cripto = Cripto(
    hash: (string, nat) -> string,
    compare: (string, string) -> bool,
    sign: (JwtPayload, int) -> string,
    verify: (string, int) -> Option<JwtPayload>)

  datatype RegisterData = RegisterData(email: string, password: string, nombre: string)
  datatype LoginCredentials = LoginCredentials(email: string, password: string)

  datatype AuthResultado = AuthResultado(
    success: bool,
    usuario: Option<UsuarioSinPassword>,
    tokens: Option<AuthTokens>,
    message: string)

  datatype RefreshResultado = RefreshResultado(success: bool, accessToken: Option<string>, message: string)

  datatype Respuesta = Respuesta(success: bool, message: string)

  /** Expiry of a refresh token issued at `now`: seven days later. */
  function ExpiraRefresh(now: int): (t: int)
    ensures t - now == 7 * 24 * 60 * 60 * 1000
  {
    now + REFRESH_TOKEN_EXPIRES_DAYS * MS_POR_DIA
  }

  /** Table invariant of `usuarios`: the primary key and the unique email, and
      the auto-increment counter above every id. */
  ghost predicate UsuariosValidos(us: seq<UsuarioFila>, nextId: int)
  {
    && (forall i, j :: 0 <= i < j < |us| ==> us[i].id != us[j].id && us[i].email != us[j].email)
    && (forall u :: u in us ==> u.id < nextId)
  }

  /** A refresh-token row that `refreshAccessToken` accepts for `token` at `now`:
      same token and strictly later expiry. */
  predicate Vigente(t: RefreshTokenFila, token: string, now: int)
  {
    t.token == token && t.expires_at > now
  }

  /** A refresh-token row that `cleanExpiredTokens` removes at `now`: strictly earlier expiry. */
  predicate Expirado(t: RefreshTokenFila, now: int)
  {
    t.expires_at < now
  }

  /** The join of `refreshAccessToken`: the first usable token row with an active
      owner, and that owner. */
  function Unir(ts: seq<RefreshTokenFila>, us: seq<UsuarioFila>, token: string, now: int): (r: Option<UsuarioFila>)
    ensures r.Some? ==> (r.value in us && r.value.activo
                         && exists t :: t in ts && Vigente(t, token, now) && t.usuario_id == r.value.id)
    ensures r.None? ==> forall t, u :: t in ts && u in us && Vigente(t, token, now) && u.id == t.usuario_id ==> !u.activo
  {
    if ts == [] then None
    else
      var t := ts[0];
      var dueno := Find(us, (u: UsuarioFila) => u.id == t.usuario_id && u.activo);
      if Vigente(t, token, now) && dueno.Some? then dueno
      else
        assert forall t' :: t' in ts ==> t' == t || t' in ts[1..];
        Unir(ts[1..], us, token, now)
  }

  class AuthService {
    var usuarios: seq<UsuarioFila>
    var refreshTokens: seq<RefreshTokenFila>
    var nextUsuarioId: int
    const cripto: Cripto

    ghost predicate Valid()
      reads this
    {
      UsuariosValidos(usuarios, nextUsuarioId)
    }

    constructor (cripto: Cripto)
      ensures Valid() && this.cripto == cripto
      ensures usuarios == [] && refreshTokens == []
    {
      this.cripto := cripto;
      usuarios := [];
      refreshTokens := [];
      nextUsuarioId := 1;
    }

    /** The access token minted for a claim set at `now`. */
    function AccessToken(p: JwtPayload, now: int): string
      reads this
    {
      cripto.sign(p, now + ACCESS_TOKEN_EXPIRES_MS)
    }

    /** `verifyAccessToken`: the verifier's claims, or `None` on any failure. */
    function VerifyAccessToken(token: string, now: int): Option<JwtPayload>
      reads this
    {
      cripto.verify(token, now)
    }

    /** `generateTokens`: a signed access token carrying exactly the user's id,
        email and role, and a new refresh-token row that expires seven days later. */
    method GenerateTokens(u: UsuarioFila, nuevoToken: string, now: int) returns (t: AuthTokens)
      modifies this`refreshTokens
      ensures refreshTokens == old(refreshTokens) + [RefreshTokenFila(u.id, nuevoToken, ExpiraRefresh(now))]
      ensures t == AuthTokens(AccessToken(PayloadDe(u), now), nuevoToken)
    {
      var acceso := AccessToken(PayloadDe(u), now);
      refreshTokens := refreshTokens + [RefreshTokenFila(u.id, nuevoToken, ExpiraRefresh(now))];
      t := AuthTokens(acceso, nuevoToken);
    }

    /** `register`: a taken email (active or not) is refused with no write;
        otherwise one user with role `usuario` and one refresh token owned by it
        are inserted. */
    method Register(data: RegisterData, nuevoToken: string, now: int) returns (r: AuthResultado)
      requires Valid()
      modifies this`usuarios, this`refreshTokens, this`nextUsuarioId
      ensures Valid()
      ensures (exists u :: u in old(usuarios) && u.email == data.email) ==>
        && r == AuthResultado(false, None, None, MSG_EMAIL_DUPLICADO)
        && usuarios == old(usuarios) && refreshTokens == old(refreshTokens)
        && nextUsuarioId == old(nextUsuarioId)
      ensures (forall u :: u in old(usuarios) ==> u.email != data.email) ==>
        var nuevo := UsuarioFila(old(nextUsuarioId), data.email, cripto.hash(data.password, SALT_ROUNDS),
                                 data.nombre, Usuario, ACTIVO_POR_DEFECTO, None);
        && usuarios == old(usuarios) + [nuevo]
        && refreshTokens == old(refreshTokens) + [RefreshTokenFila(nuevo.id, nuevoToken, ExpiraRefresh(now))]
        && nextUsuarioId == old(nextUsuarioId) + 1
        && r == AuthResultado(true, Some(SinPassword(nuevo)),
                              Some(AuthTokens(AccessToken(PayloadDe(nuevo), now), nuevoToken)), MSG_REGISTRO_OK)
    {
      var existente := Find(usuarios, (u: UsuarioFila) => u.email == data.email);
      if existente.Some? {
        r := AuthResultado(false, None, None, MSG_EMAIL_DUPLICADO);
        return;
      }
      var passwordHash := cripto.hash(data.password, SALT_ROUNDS);
      var nuevo := UsuarioFila(nextUsuarioId, data.email, passwordHash, data.nombre, Usuario, ACTIVO_POR_DEFECTO, None);
      assert forall u :: u in usuarios ==> u.id != nuevo.id && u.email != nuevo.email;
      usuarios := usuarios + [nuevo];
      nextUsuarioId := nextUsuarioId + 1;
      var tokens := GenerateTokens(nuevo, nuevoToken, now);
      r := AuthResultado(true, Some(SinPassword(nuevo)), Some(tokens), MSG_REGISTRO_OK);
    }

    /** `login`: an unknown or inactive email and a wrong password get the same
        message and change nothing; a success stamps `ultimo_login` on that user
        only and appends a refresh token, keeping the earlier ones. */
    method Login(cred: LoginCredentials, nuevoToken: string, now: int) returns (r: AuthResultado)
      requires Valid()
      modifies this`usuarios, this`refreshTokens
      ensures Valid()
      ensures r.success <==> exists u :: u in old(usuarios) && u.email == cred.email && u.activo
                                         && cripto.compare(cred.password, u.password_hash)
      ensures !r.success ==>
        && r == AuthResultado(false, None, None, MSG_CREDENCIALES)
        && usuarios == old(usuarios) && refreshTokens == old(refreshTokens)
      ensures r.success ==>
        exists k ::
          && 0 <= k < |old(usuarios)| && old(usuarios)[k].email == cred.email
          && var u := old(usuarios)[k];
          && usuarios == old(usuarios)[k := u.(ultimo_login := Some(now))]
          && refreshTokens == old(refreshTokens) + [RefreshTokenFila(u.id, nuevoToken, ExpiraRefresh(now))]
          && r == AuthResultado(true, Some(SinPassword(u)),
                                Some(AuthTokens(AccessToken(PayloadDe(u), now), nuevoToken)), MSG_LOGIN_OK)
    {
      var k := FindIndex(usuarios, (u: UsuarioFila) => u.email == cred.email && u.activo);
      if k.None? {
        r := AuthResultado(false, None, None, MSG_CREDENCIALES);
        return;
      }
      var u := usuarios[k.value];
      if !cripto.compare(cred.password, u.password_hash) {
        assert forall v :: v in usuarios && v.email == cred.email ==> v == u;
        r := AuthResultado(false, None, None, MSG_CREDENCIALES);
        return;
      }
      usuarios := usuarios[k.value := u.(ultimo_login := Some(now))];
      var tokens := GenerateTokens(u, nuevoToken, now);
      r := AuthResultado(true, Some(SinPassword(u)), Some(tokens), MSG_LOGIN_OK);
    }

    /** `refreshAccessToken`: succeeds exactly when some row holds the token with
        an expiry strictly after `now` and an active owner; only a new access
        token for that owner is minted. */
    function RefreshAccessToken(token: string, now: int): (r: RefreshResultado)
      reads this
      ensures r.success <==> exists t, u :: t in refreshTokens && u in usuarios && Vigente(t, token, now)
                                            && u.id == t.usuario_id && u.activo
      ensures !r.success ==> r == RefreshResultado(false, None, MSG_REFRESH_INVALIDO)
      ensures r.success ==>
        exists u ::
          && u in usuarios && u.activo
          && (exists t :: t in refreshTokens && Vigente(t, token, now) && t.usuario_id == u.id)
          && r == RefreshResultado(true, Some(AccessToken(PayloadDe(u), now)), MSG_REFRESH_OK)
    {
      var dueno := Unir(refreshTokens, usuarios, token, now);
      if dueno.None? then RefreshResultado(false, None, MSG_REFRESH_INVALIDO)
      else RefreshResultado(true, Some(AccessToken(PayloadDe(dueno.value), now)), MSG_REFRESH_OK)
    }

    /** `logout`: every row with this token is gone, all others stay, and the
        call always reports success. */
    method Logout(token: string) returns (r: Respuesta)
      modifies this`refreshTokens
      ensures refreshTokens == Filter(old(refreshTokens), (t: RefreshTokenFila) => t.token != token)
      ensures forall t :: t in refreshTokens ==> t.token != token
      ensures r == Respuesta(true, MSG_LOGOUT_OK)
    {
      refreshTokens := Filter(refreshTokens, (t: RefreshTokenFila) => t.token != token);
      r := Respuesta(true, MSG_LOGOUT_OK);
    }

    /** `cleanExpiredTokens`: exactly the rows expired strictly before `now` are
        deleted, and their number is returned. */
    method CleanExpiredTokens(now: int) returns (n: nat)
      modifies this`refreshTokens
      ensures refreshTokens == Filter(old(refreshTokens), (t: RefreshTokenFila) => !Expirado(t, now))
      ensures n == |Filter(old(refreshTokens), (t: RefreshTokenFila) => Expirado(t, now))|
      ensures n == |old(refreshTokens)| - |refreshTokens|
    {
      var antes := refreshTokens;
      refreshTokens := Filter(refreshTokens, (t: RefreshTokenFila) => !Expirado(t, now));
      FilterPartition(antes, (t: RefreshTokenFila) => Expirado(t, now), (t: RefreshTokenFila) => !Expirado(t, now));
      n := |antes| - |refreshTokens|;
    }

    /** `getUserById`: the user with that id, active or not, without its hash. */
    function GetUserById(userId: int): (r: Option<UsuarioSinPassword>)
      reads this
      ensures r.None? <==> forall u :: u in usuarios ==> u.id != userId
      ensures r.Some? ==> exists u :: u in usuarios && u.id == userId && r.value == SinPassword(u)
    {
      var u := Find(usuarios, (u: UsuarioFila) => u.id == userId);
      if u.None? then None else Some(SinPassword(u.value))
    }
  }

  /** Logging out twice with the same token leaves the table as logging out once. */
  lemma LogoutIdempotente(ts: seq<RefreshTokenFila>, token: string)
    ensures var p := (t: RefreshTokenFila) => t.token != token;
      Filter(Filter(ts, p), p) == Filter(ts, p)
  {
    FilterIdempotent(ts, (t: RefreshTokenFila) => t.token != token);
  }

  /** A refresh token issued at `now` refreshes at every instant before its
      expiry and at none after, and the sweep removes it only once that expiry
      has strictly passed. */
  lemma CicloDeVidaRefresh(usuarioId: int, token: string, now: int, n: int)
    ensures var t := RefreshTokenFila(usuarioId, token, ExpiraRefresh(now));
      && (Vigente(t, token, n) <==> n < now + 7 * 24 * 60 * 60 * 1000)
      && (Expirado(t, n) <==> n > now + 7 * 24 * 60 * 60 * 1000)
      && (now <= n < now + 7 * 24 * 60 * 60 * 1000 ==> Vigente(t, token, n) && !Expirado(t, n))
  {
  }

  /** Under the table invariant the claims of a user name exactly that user:
      two rows with the same `userId` claim are the same row. */
  lemma PayloadIdentifica(us: seq<UsuarioFila>, nextId: int, u: UsuarioFila, v: UsuarioFila)
    requires UsuariosValidos(us, nextId)
    requires u in us && v in us
    requires PayloadDe(u).userId == PayloadDe(v).userId
    ensures u == v
  {
    var i :| 0 <= i < |us| && us[i] == u;
    var j :| 0 <= j < |us| && us[j] == v;
  }

  /** Every stored user is returned by `getUserById`, as itself minus the hash. */
  lemma GetUserByIdDevuelveFila(s: AuthService, u: UsuarioFila)
    requires s.Valid()
    requires u in s.usuarios
    ensures s.GetUserById(u.id) == Some(SinPassword(u))
  {
    var v :| v in s.usuarios && v.id == u.id && s.GetUserById(u.id).value == SinPassword(v);
    PayloadIdentifica(s.usuarios, s.nextUsuarioId, u, v);
  }

  /** The two clocks disagree at the boundary: a row whose expiry equals `now`
      survives the sweep, yet it no longer refreshes. */
  lemma LimiteDeExpiracion(ts: seq<RefreshTokenFila>, t: RefreshTokenFila, now: int)
    requires t in ts && t.expires_at == now
    ensures t in Filter(ts, (x: RefreshTokenFila) => !Expirado(x, now))
    ensures !Vigente(t, t.token, now)
  {
  }
}
