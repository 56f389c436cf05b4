/** The user records of the authentication layer: the `usuarios` and
    `refresh_tokens` rows, the claim set carried by an access token, and the
    password-free view of a user handed to clients. */
module Usuarios {
  import opened Common

  datatype Rol = Admin | Usuario

  /** A row of `usuarios`; `ultimo_login` is NULL until the first login.
      Timestamps are milliseconds since the epoch, as JS `Date` holds them. */
  datatype UsuarioFila = UsuarioFila(
    id: int,
    email: string,
    password_hash: string,
    nombre: string,
    rol: Rol,
    activo: bool,
    ultimo_login: Option<int>)

  /** A user without `password_hash`. */
  datatype UsuarioSinPassword = UsuarioSinPassword(
    id: int,
    email: string,
    nombre: string,
    rol: Rol,
    activo: bool,
    ultimo_login: Option<int>)

  /** A row of `refresh_tokens` (its own surrogate id is not used by any query). */
  datatype RefreshTokenFila = RefreshTokenFila(usuario_id: int, token: string, expires_at: int)

  /** The claims signed into an access token. */
  datatype JwtPayload = JwtPayload(userId: int, email: string, rol: Rol)

  datatype AuthTokens = AuthTokens(accessToken: string, refreshToken: string)

  /** Dropping `password_hash` keeps every other column. */
  function SinPassword(u: UsuarioFila): (v: UsuarioSinPassword)
    ensures v.id == u.id && v.email == u.email && v.nombre == u.nombre
    ensures v.rol == u.rol && v.activo == u.activo && v.ultimo_login == u.ultimo_login
  {
    UsuarioSinPassword(u.id, u.email, u.nombre, u.rol, u.activo, u.ultimo_login)
  }

  /** Dropping the hash forgets nothing else: two rows look the same without
      it exactly when they differ at most in `password_hash`. */
  lemma SinPasswordSoloOlvidaElHash(u: UsuarioFila, v: UsuarioFila)
    ensures SinPassword(u) == SinPassword(v) <==> u == v.(password_hash := u.password_hash)
  {
  }

  /** The claim set of a user: exactly its id, email and role. */
  function PayloadDe(u: UsuarioFila): (p: JwtPayload)
    ensures p.userId == u.id && p.email == u.email && p.rol == u.rol
  {
    JwtPayload(u.id, u.email, u.rol)
  }
}
