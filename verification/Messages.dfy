/** What the mail operations share: message headers and the state of an operation. */
module Messages {

  datatype Option<+T> = None | Some(value: T)

  datatype Header = Header(uid: string, dateSent: int, size: nat, deleted: bool, cached: bool,
                           subject: Option<string>, sender: Option<string>, recipient: Option<string>)

  datatype Status = Invalid | InProgress | Success | FinishedWithErrors | Failed | Canceled

  datatype OperationError = Reported | ItemNotFound | OperationCanceled | BadParameter | FolderRules | LowMemory

  const G_MAXINT: int := 0x7FFF_FFFF
  const G_MAXUINT: int := 0xFFFF_FFFF

  function Min(a: int, b: int): int {
    if a < b then a else b
  }
}
