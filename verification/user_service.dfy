/** The user façade: creates users from transfer objects and reads them back. */
module UserService {
  import opened Outcomes
  import UserStore

  /** The user fields a caller supplies and gets back (`UserDto`). */
  datatype UserDto = UserDto(firstName: string, lastName: string, address: string)

  /** `userDtoToUser`: a field-by-field copy. The mapper leaves the id and the
      account set unset; the id is written as 0 here and is replaced by the
      store, and the account set is replaced by `AddUser`. */
  function ToUser(dto: UserDto): (u: UserStore.User)
    ensures u.firstName == dto.firstName && u.lastName == dto.lastName && u.address == dto.address
    ensures u.accounts == {}
  {
    UserStore.User(0, dto.firstName, dto.lastName, dto.address, {})
  }

  /** `userToUserDto`: a field-by-field copy. */
  function ToDto(u: UserStore.User): (dto: UserDto)
    ensures dto.firstName == u.firstName && dto.lastName == u.lastName && dto.address == u.address
  {
    UserDto(u.firstName, u.lastName, u.address)
  }

  /** The mapper's two directions are inverse on transfer objects. */
  lemma MapperRoundTrip(dto: UserDto)
    ensures ToDto(ToUser(dto)) == dto
  {
  }

  /** `addUser`: stores the user with an empty account set and returns the id
      the store assigned. */
  function AddUser(s: UserStore.Store, dto: UserDto): (r: UserStore.Added)
    ensures r.id == s.idGenerator + 1
    ensures GetUser(r.store, r.id) == Ok(dto)
    ensures GetAccountsForUser(r.store, r.id) == Ok({})
    ensures forall id :: id != r.id ==> GetUser(r.store, id) == GetUser(s, id)
    ensures forall id :: id != r.id ==> GetAccountsForUser(r.store, id) == GetAccountsForUser(s, id)
  {
    UserStore.AddUser(s, ToUser(dto).(accounts := {}))
  }

  /** `getUser`: the stored user's fields, or `UserNotFound`. */
  function GetUser(s: UserStore.Store, id: int): (r: Result<UserDto>)
    ensures r.Ok? <==> id in s.users
    ensures r.Err? ==> r.error == UserNotFound
    ensures r.Ok? ==>
              && r.value.firstName == s.users[id].firstName
              && r.value.lastName == s.users[id].lastName
              && r.value.address == s.users[id].address
  {
    match UserStore.GetUser(s, id)
    case Some(u) => Ok(ToDto(u))
    case None => Err(UserNotFound)
  }

  /** `getAccountsForUser`: the user's IBAN set, or `UserNotFound`. */
  function GetAccountsForUser(s: UserStore.Store, id: int): (r: Result<set<string>>)
    ensures r.Ok? <==> id in s.users
    ensures r.Err? ==> r.error == UserNotFound
    ensures r.Ok? ==> r.value == s.users[id].accounts
  {
    match UserStore.GetUser(s, id)
    case Some(u) => Ok(u.accounts)
    case None => Err(UserNotFound)
  }
}
