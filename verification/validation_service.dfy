/** Input checks applied before the ledger is called (`ValidationService`). */
module ValidationService {
  import opened Outcomes
  import opened AccountService

  /** How the IBAN library's validator ends on a string: normally, with an
      IBAN format exception, or with any other exception of the library. */
  datatype IbanCheck = Accepted | FormatError | OtherError

  /** The IBAN library's validator. Its rules are not part of this model. */
  type IbanChecker = string -> IbanCheck

  /** `validateAmount`: a missing or negative amount is invalid input. */
  function ValidateAmount(amount: Option<real>): (r: Result<()>)
    ensures r.Ok? <==> amount.Some? && amount.value >= 0.0
    ensures r.Err? ==> r.error == InvalidInput
  {
    match amount
    case None => Err(InvalidInput)
    case Some(a) => if a < 0.0 then Err(InvalidInput) else Ok(())
  }

  /** `validateIban`: a format exception becomes invalid input; any other
      exception of the library is not caught and escapes as it is. */
  function ValidateIban(iban: string, check: IbanChecker): (r: Result<()>)
    ensures r.Ok? <==> check(iban) == Accepted
    ensures check(iban) == FormatError <==> r == Err(InvalidInput)
    ensures check(iban) == OtherError <==> r == Err(IbanLibraryFailure)
  {
    match check(iban)
    case Accepted => Ok(())
    case FormatError => Err(InvalidInput)
    case OtherError => Err(IbanLibraryFailure)
  }

  /** `validate(AmountDto)`: the amount first, then the IBAN. */
  function Validate(dto: AmountDto, check: IbanChecker): (r: Result<()>)
    ensures r.Ok? <==> dto.amount.Some? && dto.amount.value >= 0.0 && check(dto.iban) == Accepted
    ensures !(dto.amount.Some? && dto.amount.value >= 0.0) ==> r == Err(InvalidInput)
    ensures dto.amount.Some? && dto.amount.value >= 0.0 ==> r == ValidateIban(dto.iban, check)
  {
    match ValidateAmount(dto.amount)
    case Err(e) => Err(e)
    case Ok(_) => ValidateIban(dto.iban, check)
  }

  /** `validate(TransferAmountDto)`: the amount, then the sender IBAN, then
      the receiver IBAN; the first failure is the one reported. */
  function ValidateTransfer(dto: TransferAmountDto, check: IbanChecker): (r: Result<()>)
    ensures r.Ok? <==>
              && dto.amount.Some? && dto.amount.value >= 0.0
              && check(dto.senderIban) == Accepted
              && check(dto.receiverIban) == Accepted
    ensures !(dto.amount.Some? && dto.amount.value >= 0.0) ==> r == Err(InvalidInput)
    ensures dto.amount.Some? && dto.amount.value >= 0.0 && check(dto.senderIban) != Accepted ==>
              r == ValidateIban(dto.senderIban, check)
    ensures dto.amount.Some? && dto.amount.value >= 0.0 && check(dto.senderIban) == Accepted ==>
              r == ValidateIban(dto.receiverIban, check)
  {
    match ValidateAmount(dto.amount)
    case Err(e) => Err(e)
    case Ok(_) =>
      match ValidateIban(dto.senderIban, check)
      case Err(e) => Err(e)
      case Ok(_) => ValidateIban(dto.receiverIban, check)
  }
}
