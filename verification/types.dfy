/** Value types shared by the services, the endpoints and the pages of EstagioPro. */
module Types {

  datatype Option<+T> = None | Some(value: T)

  /** The profile the client keeps for the signed-in advisor (`User` in the types module). */
  datatype User = User(
    id: string,
    email: string,
    nome: string,
    tipo: string,
    status: string,
    createdAt: string,
    updatedAt: string)

  /** Value of `tipo` that grants administrator rights. */
  const Administrador: string := "administrador"

  /** Sort direction of `SortOptions` and of the table header. */
  datatype Direction = Asc | Desc

  /** The `{success, data?, error?, message?}` envelope every data-access call returns. */
  datatype ApiResponse<T> = Ok(data: T, message: Option<string>) | Err(error: string)

  /** Message of every catch-all branch. */
  const InternalError: string := "Erro interno do servidor"

  /** An API route's reply: the HTTP status code and the JSON envelope. */
  datatype HttpResponse<T> = HttpResponse(status: int, body: ApiResponse<T>)

  /** Message of the 405 reply of every API route. */
  const MethodNotAllowed: string := "Método não permitido"

  /** Signing key used when the environment sets none. */
  const DefaultSecret: string := "sua-chave-secreta-super-segura-aqui"

  /** `process.env.JWT_SECRET || DefaultSecret`: an unset or empty variable falls back to the default. */
  function Secret(env: Option<string>): (key: string)
    ensures key != ""
    ensures Truthy(env) ==> key == env.value
    ensures !Truthy(env) ==> key == DefaultSecret
  {
    if Truthy(env) then env.value else DefaultSecret
  }

  /** JavaScript truthiness of an optional string: `undefined` and `""` are falsy. */
  predicate Truthy(s: Option<string>)
  {
    s.Some? && s.value != ""
  }
}
