/** `checkBuyer(action)`: lets a request through only when its caller is not
    a seller. */
module CheckBuyer {
  import opened AppErrors

  function Check(action: string, isSeller: bool): (r: NextCall)
    ensures r.NextWith? <==> isSeller
    ensures r.NextWith? ==> r.err.statusCode == 403
    ensures r.NextWith? ==> r.err.message == "You are not allowed to " + action + "!"
  {
    if isSeller then NextWith(Forbidden(action)) else Next
  }
}
