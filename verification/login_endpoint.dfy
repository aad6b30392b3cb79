/**
 * The `POST /api/auth/login` route: a chain of guards over the request, a lookup of the active
 * advisor with the given email, a comparison of the stored digest with the SHA-256 digest of the
 * password in lowercase hexadecimal, and on success a signed token plus the advisor's row
 * without its password column.
 *
 * The database, SHA-256 and token signing are parameters: `db` is `None` when opening the
 * database or the query throws, `sha256` stands for `crypto.createHash('sha256')` and
 * `sign(claims, key, expiresIn)` for `jwt.sign`.
 */
module LoginEndpoint {
  import opened Types
  import Hex

  /** The eight columns the lookup selects from `orientadores`. */
  datatype AdvisorRow = AdvisorRow(
    id: string,
    nome: string,
    email: string,
    senha: string,
    tipo: string,
    status: string,
    departamento: Option<string>,
    telefone: Option<string>)

  /** The row as it is sent back: every selected column except `senha`. */
  datatype PublicAdvisor = PublicAdvisor(
    id: string,
    nome: string,
    email: string,
    tipo: string,
    status: string,
    departamento: Option<string>,
    telefone: Option<string>)

  /** The JSON body of the request; a missing field is `None`. */
  datatype LoginBody = LoginBody(email: Option<string>, password: Option<string>)

  /** The token payload `{userId, email, tipo}`. */
  datatype Claims = Claims(userId: string, email: string, tipo: string)

  /** What a successful login carries besides the message. */
  datatype Session = Session(user: PublicAdvisor, token: string)

  const Ativo: string := "Ativo"
  const MissingFields: string := "Email e senha são obrigatórios"
  const InvalidCredentials: string := "Credenciais inválidas"
  const LoginSucceeded: string := "Login realizado com sucesso"
  const TokenLifetime: string := "7d"

  /** `const { senha, ...userWithoutPassword } = user`. */
  function WithoutPassword(u: AdvisorRow): (p: PublicAdvisor)
    ensures p.id == u.id && p.nome == u.nome && p.email == u.email && p.tipo == u.tipo
    ensures p.status == u.status && p.departamento == u.departamento && p.telefone == u.telefone
  {
    PublicAdvisor(u.id, u.nome, u.email, u.tipo, u.status, u.departamento, u.telefone)
  }

  /** Puts a password column back on a public row. */
  function WithPassword(p: PublicAdvisor, senha: string): AdvisorRow
  {
    AdvisorRow(p.id, p.nome, p.email, senha, p.tipo, p.status, p.departamento, p.telefone)
  }

  /** Only `senha` is dropped: the row is the public row plus its password. */
  lemma StripRoundTrip(u: AdvisorRow)
    ensures WithPassword(WithoutPassword(u), u.senha) == u
  {
  }

  /** Rows that differ in anything but the password are sent back differently. */
  lemma StripKeepsOtherColumns(u: AdvisorRow, v: AdvisorRow)
    requires WithoutPassword(u) == WithoutPassword(v)
    ensures u == v.(senha := u.senha)
  {
  }

  /** `WHERE email = ? AND status = 'Ativo'` answered by `db.get`: the first matching row. */
  function FindActive(rows: seq<AdvisorRow>, email: string): (r: Option<AdvisorRow>)
    ensures r.None? <==> forall i :: 0 <= i < |rows| ==> !(rows[i].email == email && rows[i].status == Ativo)
    ensures r.Some? ==> r.value in rows && r.value.email == email && r.value.status == Ativo
  {
    if rows == [] then None
    else if rows[0].email == email && rows[0].status == Ativo then Some(rows[0])
    else
      var r := FindActive(rows[1..], email);
      assert forall i :: 1 <= i < |rows| ==> rows[i] == rows[1..][i - 1];
      r
  }

  /** The route's reply. */
  function Handle(httpMethod: string, body: LoginBody, env: Option<string>, db: Option<seq<AdvisorRow>>,
                  sha256: string -> seq<Hex.byte>, sign: (Claims, string, string) -> string)
    : (res: HttpResponse<Session>)
    ensures httpMethod != "POST" ==> res == HttpResponse(405, Err(MethodNotAllowed))
    ensures httpMethod == "POST" && !(Truthy(body.email) && Truthy(body.password))
            ==> res == HttpResponse(400, Err(MissingFields))
    ensures res.status == 500 <==> (httpMethod == "POST" && Truthy(body.email) && Truthy(body.password) && db.None?)
    ensures res.status == 500 ==> res.body == Err(InternalError)
    ensures res.status == 401 ==> res.body == Err(InvalidCredentials)
    ensures httpMethod == "POST" && Truthy(body.email) && Truthy(body.password) && db.Some? && res.status != 200
            ==> res == HttpResponse(401, Err(InvalidCredentials))
    ensures res.status == 200 <==>
              (&& httpMethod == "POST" && Truthy(body.email) && Truthy(body.password) && db.Some?
               && FindActive(db.value, body.email.value).Some?
               && FindActive(db.value, body.email.value).value.senha == Hex.HashPassword(sha256, body.password.value))
    ensures res.status == 200 ==>
              && res.body.Ok? && res.body.message == Some(LoginSucceeded)
              && (exists u :: && u in db.value && u.email == body.email.value && u.status == Ativo
                              && u.senha == Hex.HashPassword(sha256, body.password.value)
                              && res.body.data.user == WithoutPassword(u)
                              && res.body.data.token == sign(Claims(u.id, u.email, u.tipo), Secret(env), TokenLifetime))
    ensures res.status in {200, 400, 401, 405, 500}
  {
    if httpMethod != "POST" then HttpResponse(405, Err(MethodNotAllowed))
    else if !Truthy(body.email) || !Truthy(body.password) then HttpResponse(400, Err(MissingFields))
    else if db.None? then HttpResponse(500, Err(InternalError))
    else
      var found := FindActive(db.value, body.email.value);
      if found.None? then HttpResponse(401, Err(InvalidCredentials))
      else if found.value.senha != Hex.HashPassword(sha256, body.password.value) then HttpResponse(401, Err(InvalidCredentials))
      else
        var u := found.value;
        var token := sign(Claims(u.id, u.email, u.tipo), Secret(env), TokenLifetime);
        HttpResponse(200, Ok(Session(WithoutPassword(u), token), Some(LoginSucceeded)))
  }

  /**
   * An unknown or inactive email and a wrong password get the same reply, so a caller cannot
   * tell which accounts exist.
   */
  lemma UnknownUserLooksLikeWrongPassword(email: string, password: string, env: Option<string>,
                                          unknown: seq<AdvisorRow>, known: seq<AdvisorRow>,
                                          sha256: string -> seq<Hex.byte>, sign: (Claims, string, string) -> string)
    requires email != "" && password != ""
    requires forall i :: 0 <= i < |unknown| ==> !(unknown[i].email == email && unknown[i].status == Ativo)
    requires forall i :: 0 <= i < |known| ==> known[i].email == email && known[i].status == Ativo
                                              ==> known[i].senha != Hex.HashPassword(sha256, password)
    ensures var body := LoginBody(Some(email), Some(password));
            Handle("POST", body, env, Some(unknown), sha256, sign) == Handle("POST", body, env, Some(known), sha256, sign)
  {
    var body := LoginBody(Some(email), Some(password));
    var r := Handle("POST", body, env, Some(known), sha256, sign);
    assert r.status != 200;
  }

  /**
   * Among several active rows with one email, only the first is ever checked.  The schema
   * declares `email` unique, so such a table does not arise from the application itself; the
   * lemma records what the lookup would do with one.
   */
  lemma OnlyFirstActiveRowCounts(first: AdvisorRow, rest: seq<AdvisorRow>, password: string,
                                 env: Option<string>, sha256: string -> seq<Hex.byte>,
                                 sign: (Claims, string, string) -> string)
    requires first.email != "" && password != "" && first.status == Ativo
    requires first.senha != Hex.HashPassword(sha256, password)
    ensures Handle("POST", LoginBody(Some(first.email), Some(password)), env, Some([first] + rest), sha256, sign).status == 401
  {
  }
}
