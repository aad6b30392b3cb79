/**
 * The client-side authentication service: sign-in through the hosted identity service with a
 * fallback to the legacy `orientadores.senha` digest column, the current user's profile and the
 * administrator test.
 *
 * The identity service and the table are parameters: `signIn` is the id of the user the
 * identity service signed in, or `None` when it answered with an error; `session` is the id of
 * the user of the current session; `table` is the `orientadores` table, or `None` when the query
 * answered with an error.
 */
module AuthService {
  import opened Types
  import Hex

  /** A row of `orientadores`, every column (`select('*')`). */
  datatype ProfileRow = ProfileRow(
    id: string,
    nome: string,
    email: string,
    senha: string,
    telefone: Option<string>,
    departamento: Option<string>,
    tipo: string,
    status: string,
    createdAt: string,
    updatedAt: string)

  /** The login form's fields. */
  datatype Credentials = Credentials(email: string, password: string)

  /** What `login` answers, and whether it signed the identity service out on the way. */
  datatype LoginOutcome = LoginOutcome(response: ApiResponse<User>, signedOut: bool)

  const Ativo: string := "Ativo"
  const InvalidOrInactive: string := "Credenciais inválidas ou usuário inativo"
  const ProfileNotFound: string := "Perfil de usuário não encontrado"
  const NotAuthenticated: string := "Usuário não autenticado"
  const LoginSucceeded: string := "Login realizado com sucesso"

  /** The `User` built from a profile row: seven columns copied, the password never. */
  function ToUser(row: ProfileRow): (u: User)
    ensures u.id == row.id && u.email == row.email && u.nome == row.nome && u.tipo == row.tipo
    ensures u.status == row.status && u.createdAt == row.createdAt && u.updatedAt == row.updatedAt
  {
    User(row.id, row.email, row.nome, row.tipo, row.status, row.createdAt, row.updatedAt)
  }

  /** Nothing of the password column reaches the `User`. */
  lemma ToUserIgnoresPassword(row: ProfileRow, senha: string)
    ensures ToUser(row.(senha := senha)) == ToUser(row)
  {
  }

  /** The rows a chain of `.eq(...)` filters keeps, in table order, each as often as the table holds it. */
  function Where(rows: seq<ProfileRow>, keep: ProfileRow -> bool): (r: seq<ProfileRow>)
    ensures |r| <= |rows|
    ensures forall x :: x in r <==> x in rows && keep(x)
    ensures forall x :: multiset(r)[x] == if keep(x) then multiset(rows)[x] else 0
  {
    if rows == [] then []
    else
      assert rows == [rows[0]] + rows[1..];
      if keep(rows[0]) then [rows[0]] + Where(rows[1..], keep)
      else Where(rows[1..], keep)
  }

  /** When the row at `k` is the only one kept, the filter keeps exactly that row. */
  lemma {:induction false} WhereOfUnique(rows: seq<ProfileRow>, keep: ProfileRow -> bool, k: nat)
    requires k < |rows| && keep(rows[k])
    requires forall i :: 0 <= i < |rows| && keep(rows[i]) ==> i == k
    ensures Where(rows, keep) == [rows[k]]
  {
    if k == 0 {
      WhereOfNone(rows[1..], keep);
    } else {
      WhereOfUnique(rows[1..], keep, k - 1);
    }
  }

  /** When no row is kept, the filter keeps nothing. */
  lemma {:induction false} WhereOfNone(rows: seq<ProfileRow>, keep: ProfileRow -> bool)
    requires forall i :: 0 <= i < |rows| ==> !keep(rows[i])
    ensures Where(rows, keep) == []
  {
    if rows != [] {
      WhereOfNone(rows[1..], keep);
    }
  }

  /** Two kept positions make the filter keep at least two rows, equal or not. */
  lemma {:induction false} WhereOfTwo(rows: seq<ProfileRow>, keep: ProfileRow -> bool, i: nat, j: nat)
    requires i < j < |rows| && keep(rows[i]) && keep(rows[j])
    ensures |Where(rows, keep)| >= 2
  {
    if i == 0 {
      assert rows[j] == rows[1..][j - 1];
      assert rows[j] in Where(rows[1..], keep);
    } else {
      WhereOfTwo(rows[1..], keep, i - 1, j - 1);
    }
  }

  /** `.single()`: the row when exactly one matched; none matching or several are an error. */
  function Single(table: Option<seq<ProfileRow>>, keep: ProfileRow -> bool): (r: Option<ProfileRow>)
    ensures r.Some? <==> table.Some? && |Where(table.value, keep)| == 1
    ensures r.Some? ==> r.value == Where(table.value, keep)[0] && r.value in table.value && keep(r.value)
    ensures table.Some? && (forall x :: x in table.value ==> !keep(x)) ==> r.None?
  {
    if table.None? then None
    else
      var rows := Where(table.value, keep);
      if |rows| == 1 then
        assert rows[0] in rows;
        Some(rows[0])
      else
        assert rows != [] ==> rows[0] in rows;
        None
  }

  /** Exactly one matching row: `.single()` answers that row. */
  lemma SingleOfUnique(rows: seq<ProfileRow>, keep: ProfileRow -> bool, k: nat)
    requires k < |rows| && keep(rows[k])
    requires forall i :: 0 <= i < |rows| && keep(rows[i]) ==> i == k
    ensures Single(Some(rows), keep) == Some(rows[k])
  {
    WhereOfUnique(rows, keep, k);
  }

  /** Two matching rows, even two copies of one row: `.single()` answers an error. */
  lemma SingleRefusesTwo(rows: seq<ProfileRow>, keep: ProfileRow -> bool, i: nat, j: nat)
    requires i < j < |rows| && keep(rows[i]) && keep(rows[j])
    ensures Single(Some(rows), keep).None?
  {
    WhereOfTwo(rows, keep, i, j);
  }

  /** `.eq('email', …).eq('senha', …).eq('status', 'Ativo')`. */
  function LegacyMatch(email: string, hash: string): ProfileRow -> bool
  {
    (row: ProfileRow) => row.email == email && row.senha == hash && row.status == Ativo
  }

  /** `.eq('id', …)`. */
  function HasId(id: string): ProfileRow -> bool
  {
    (row: ProfileRow) => row.id == id
  }

  /**
   * `login`: the identity service first; when it refuses, the single active row whose email and
   * password digest match; when it accepts, the single profile with the signed-in id, signing
   * out again when there is none.
   */
  function Login(credentials: Credentials, signIn: Option<string>, table: Option<seq<ProfileRow>>,
                 sha256: string -> seq<Hex.byte>): (r: LoginOutcome)
    ensures r.response.Ok? ==> r.response.message == Some(LoginSucceeded)
    ensures r.response.Ok? ==> exists row :: && table.Some? && row in table.value
                                            && r.response.data == ToUser(row)
                                            && (signIn.None? ==> && row.email == credentials.email
                                                                 && row.senha == Hex.HashPassword(sha256, credentials.password)
                                                                 && row.status == Ativo)
                                            && (signIn.Some? ==> row.id == signIn.value)
    ensures signIn.None? && r.response.Err? ==> r.response.error == InvalidOrInactive
    ensures signIn.Some? && r.response.Err? ==> r.response.error == ProfileNotFound
    ensures r.signedOut <==> signIn.Some? && r.response.Err?
    ensures signIn.None? && table.Some?
            && (forall row :: row in table.value ==> !(row.email == credentials.email
                                                      && row.senha == Hex.HashPassword(sha256, credentials.password)
                                                      && row.status == Ativo))
            ==> r.response == Err(InvalidOrInactive)
    ensures signIn.Some? && table.Some? && (forall row :: row in table.value ==> row.id != signIn.value)
            ==> r == LoginOutcome(Err(ProfileNotFound), true)
    ensures signIn.None? ==>
              var matches := if table.Some? then Where(table.value, LegacyMatch(credentials.email, Hex.HashPassword(sha256, credentials.password))) else [];
              && (table.Some? && |matches| == 1 ==> r == LoginOutcome(Ok(ToUser(matches[0]), Some(LoginSucceeded)), false))
              && (table.None? || |matches| != 1 ==> r == LoginOutcome(Err(InvalidOrInactive), false))
    ensures signIn.Some? ==>
              var matches := if table.Some? then Where(table.value, HasId(signIn.value)) else [];
              && (table.Some? && |matches| == 1 ==> r == LoginOutcome(Ok(ToUser(matches[0]), Some(LoginSucceeded)), false))
              && (table.None? || |matches| != 1 ==> r == LoginOutcome(Err(ProfileNotFound), true))
  {
    if signIn.None? then
      var hash := Hex.HashPassword(sha256, credentials.password);
      var found := Single(table, LegacyMatch(credentials.email, hash));
      if found.None? then LoginOutcome(Err(InvalidOrInactive), false)
      else LoginOutcome(Ok(ToUser(found.value), Some(LoginSucceeded)), false)
    else
      var found := Single(table, HasId(signIn.value));
      if found.None? then LoginOutcome(Err(ProfileNotFound), true)
      else LoginOutcome(Ok(ToUser(found.value), Some(LoginSucceeded)), false)
  }

  /** The legacy path admits only active advisors; the identity-service path admits any status. */
  lemma ManagedLoginIgnoresStatus(credentials: Credentials, row: ProfileRow, sha256: string -> seq<Hex.byte>)
    requires row.status != Ativo
    ensures Login(credentials, None, Some([row]), sha256).response.Err?
    ensures Login(credentials, Some(row.id), Some([row]), sha256).response == Ok(ToUser(row), Some(LoginSucceeded))
  {
    assert Where([row], HasId(row.id)) == [row];
  }

  /** One active row with the email and the password's digest, and no other: the legacy login succeeds with it. */
  lemma LegacyLoginSucceeds(credentials: Credentials, table: seq<ProfileRow>, k: nat, sha256: string -> seq<Hex.byte>)
    requires k < |table|
    requires LegacyMatch(credentials.email, Hex.HashPassword(sha256, credentials.password))(table[k])
    requires forall i :: 0 <= i < |table| && LegacyMatch(credentials.email, Hex.HashPassword(sha256, credentials.password))(table[i]) ==> i == k
    ensures Login(credentials, None, Some(table), sha256) == LoginOutcome(Ok(ToUser(table[k]), Some(LoginSucceeded)), false)
  {
    WhereOfUnique(table, LegacyMatch(credentials.email, Hex.HashPassword(sha256, credentials.password)), k);
  }

  /** The identity service signed in a user whose id exactly one profile carries: the login succeeds with it. */
  lemma ManagedLoginSucceeds(credentials: Credentials, id: string, table: seq<ProfileRow>, k: nat, sha256: string -> seq<Hex.byte>)
    requires k < |table| && table[k].id == id
    requires forall i :: 0 <= i < |table| && table[i].id == id ==> i == k
    ensures Login(credentials, Some(id), Some(table), sha256) == LoginOutcome(Ok(ToUser(table[k]), Some(LoginSucceeded)), false)
  {
    WhereOfUnique(table, HasId(id), k);
  }

  /** Two active rows with the email and the digest, even two copies of one row, make `.single()` fail, so the legacy login fails. */
  lemma DuplicateLegacyRowsRefused(credentials: Credentials, table: seq<ProfileRow>, i: nat, j: nat, sha256: string -> seq<Hex.byte>)
    requires i < j < |table|
    requires LegacyMatch(credentials.email, Hex.HashPassword(sha256, credentials.password))(table[i])
    requires LegacyMatch(credentials.email, Hex.HashPassword(sha256, credentials.password))(table[j])
    ensures Login(credentials, None, Some(table), sha256) == LoginOutcome(Err(InvalidOrInactive), false)
  {
    WhereOfTwo(table, LegacyMatch(credentials.email, Hex.HashPassword(sha256, credentials.password)), i, j);
  }

  /** `getCurrentUser`: no session user, then no single profile with that id, then the user. */
  function GetCurrentUser(session: Option<string>, table: Option<seq<ProfileRow>>): (r: ApiResponse<User>)
    ensures session.None? ==> r == Err(NotAuthenticated)
    ensures session.Some? && r.Err? ==> r.error == ProfileNotFound
    ensures session.Some? && table.Some? && (forall row :: row in table.value ==> row.id != session.value)
            ==> r == Err(ProfileNotFound)
    ensures r.Ok? ==> r.message == None && session.Some?
                      && exists row :: table.Some? && row in table.value && row.id == session.value && r.data == ToUser(row)
    ensures session.Some? && table.Some? && |Where(table.value, HasId(session.value))| == 1
            ==> r == Ok(ToUser(Where(table.value, HasId(session.value))[0]), None)
    ensures session.Some? && (table.None? || |Where(table.value, HasId(session.value))| != 1) ==> r == Err(ProfileNotFound)
  {
    if session.None? then Err(NotAuthenticated)
    else
      var found := Single(table, HasId(session.value));
      if found.None? then Err(ProfileNotFound) else Ok(ToUser(found.value), None)
  }

  /** A session whose id exactly one profile carries: the current user is that profile. */
  lemma CurrentUserOfUniqueProfile(id: string, table: seq<ProfileRow>, k: nat)
    requires k < |table| && table[k].id == id
    requires forall i :: 0 <= i < |table| && table[i].id == id ==> i == k
    ensures GetCurrentUser(Some(id), Some(table)) == Ok(ToUser(table[k]), None)
  {
    WhereOfUnique(table, HasId(id), k);
  }

  /**
   * `isAdmin`: the current user is found and is an administrator, that is, the session has a
   * user, exactly one profile carries that user's id, and its `tipo` is `administrador`.
   */
  function IsAdmin(session: Option<string>, table: Option<seq<ProfileRow>>): (admin: bool)
    ensures admin <==> && session.Some? && table.Some?
                       && |Where(table.value, HasId(session.value))| == 1
                       && Where(table.value, HasId(session.value))[0].tipo == Administrador
    ensures admin ==> exists row :: table.Some? && row in table.value && row.id == session.value && row.tipo == Administrador
  {
    var current := GetCurrentUser(session, table);
    current.Ok? && current.data.tipo == Administrador
  }
}
