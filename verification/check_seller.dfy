/** `checkSeller(action)`: lets a request through only when its caller is a
    seller. */
module CheckSeller {
  import opened AppErrors
  import CheckBuyer

  function Check(action: string, isSeller: bool): (r: NextCall)
    ensures r.NextWith? <==> !isSeller
    ensures r.NextWith? ==> r.err.statusCode == 403
    ensures r.NextWith? ==> r.err.message == "You are not allowed to " + action + "!"
    // For the same request, exactly one of the two gates lets it through, and
    // both refuse with the same error.
    ensures r.Next? <==> CheckBuyer.Check(action, isSeller).NextWith?
    ensures r.NextWith? ==> CheckBuyer.Check(action, !isSeller) == r
  {
    if !isSeller then NextWith(Forbidden(action)) else Next
  }
}
