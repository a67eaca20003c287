/** The user collection endpoint: GET lists users as the store returns them
    (oldest first), POST creates a user. */
module UsersRoute {
  import opened Common

  datatype UserRow = UserRow(id: string, name: string, icon: string, createdAt: int, updatedAt: int)

  /** The store's ordering for the listing query: ascending creation time. */
  predicate CreationOrdered(us: seq<UserRow>)
  {
    forall i, j :: 0 <= i < j < |us| ==> us[i].createdAt <= us[j].createdAt
  }

  const FetchFailed := "Failed to fetch users"

  /** GET: the rows as the store returned them with status 200, or status 500
      with an error when the query fails. The store is queried with ascending
      creation order, which `fetched` is required to have. */
  function ListUsers(fetched: Option<seq<UserRow>>): (r: Reply<seq<UserRow>>)
    requires fetched.Some? ==> CreationOrdered(fetched.value)
    ensures fetched.None? ==> r == Reply(500, ErrorMessage(FetchFailed))
    ensures fetched.Some? ==> r.status == 200 && r.body.Payload? && r.body.value == fetched.value
    ensures r.body.Payload? ==> CreationOrdered(r.body.value)
  {
    match fetched
    case None => Reply(500, ErrorMessage(FetchFailed))
    case Some(us) => Reply(200, Payload(us))
  }

  /** The body of a POST request; a field that is absent or null is None. */
  datatype UserInput = UserInput(name: Option<string>, icon: Option<string>)

  /** The data handed to the create call. */
  datatype UserData = UserData(name: string, icon: string)

  const FieldsRequired := "Name and icon are required"
  const UserExists := "User already exists"
  const CreateFailed := "Failed to create user"

  /** The handler as intended: 400 without a name or icon, otherwise the create
      call and 201, 409 on a duplicate name, 500 on any other failure. */
  function CreateUser(body: Option<UserInput>, db: DbResult): (h: Handled<UserData>)
    ensures h.write.Some? <==> body.Some? && Truthy(body.value.name) && Truthy(body.value.icon)
    ensures h.write.Some? ==> h.write.value == UserData(body.value.name.value, body.value.icon.value)
    ensures h.reply.status == 400 <==> body.Some? && !(Truthy(body.value.name) && Truthy(body.value.icon))
    ensures h.reply.status == 400 ==> h.reply.body == ErrorMessage(FieldsRequired)
    ensures body.None? ==> h.reply == Reply(500, ErrorMessage(CreateFailed))
    ensures h.write.Some? ==> h.reply == CreateReply(h.write.value, db, UserExists, CreateFailed)
  {
    match body
    case None => Handled(None, Reply(500, ErrorMessage(CreateFailed)))
    case Some(input) =>
      if !Truthy(input.name) || !Truthy(input.icon) then
        Handled(None, Reply(400, ErrorMessage(FieldsRequired)))
      else
        var data := UserData(input.name.value, input.icon.value);
        Handled(Some(data), CreateReply(data, db, UserExists, CreateFailed))
  }

  /** How the handler as written ends: it returns, or an exception escapes
      it and the framework answers with its own 500 page. */
  datatype Escaped<T> = Returns(handled: Handled<T>) | Throws(write: Option<T>)

  /** The handler as written: its catch block reads `name`, a constant
      declared inside the try block, so on the unique-violation branch the
      lookup throws a ReferenceError before the 409 is returned. */
  function CreateUserAsWritten(body: Option<UserInput>, db: DbResult): (e: Escaped<UserData>)
    ensures e.Throws? <==> body.Some? && Truthy(body.value.name) && Truthy(body.value.icon) && db == UniqueViolation
    ensures e.Returns? ==> e.handled == CreateUser(body, db)
  {
    var h := CreateUser(body, db);
    if h.write.Some? && db == UniqueViolation then Throws(h.write) else Returns(h)
  }

  /** The discrepancy: a duplicate name never gets the 409 the catch block
      was written to send. */
  lemma DuplicateNameNeverAnswered409()
    ensures var body := Some(UserInput(Some("Ann"), Some("x")));
            CreateUserAsWritten(body, UniqueViolation).Throws?
            && CreateUser(body, UniqueViolation).reply == Reply(409, ErrorMessage(UserExists))
  {
    var body := Some(UserInput(Some("Ann"), Some("x")));
    var h := CreateUser(body, UniqueViolation);
    assert h.write.Some?;
  }

  /** Outside the duplicate-name case the handler as written and the
      intended one agree. */
  lemma {:induction false} AsWrittenAgreesElsewhere(body: Option<UserInput>, db: DbResult)
    requires db != UniqueViolation
    ensures CreateUserAsWritten(body, db) == Returns(CreateUser(body, db))
  {
  }
}
