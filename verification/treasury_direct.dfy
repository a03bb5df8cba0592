/** The request the tool sends to the pricing service for one bond, and how
    it treats the response. The transport itself is not part of this model:
    the response's status code and body are parameters. */
module TreasuryDirect {
  import opened Wrappers
  import opened Decimal
  import opened Bonds

  const PriceUrl: string := "https://www.treasurydirect.gov/BC/SBCPrice"

  /** A form post: target address and the form fields in the order sent. */
  datatype PostRequest = PostRequest(url: string, params: seq<(string, string)>)

  /** The response was not HTTP 200. The program raises an exception that
      carries only a fixed message; keeping the status is this model's
      addition. */
  datatype PostError = BadPostResponse(status: int)

  /** Value of the first form field with the given name. */
  function Lookup(params: seq<(string, string)>, name: string): (v: Option<string>)
    ensures v.Some? <==> exists i :: 0 <= i < |params| && params[i].0 == name
  {
    if params == [] then None
    else if params[0].0 == name then Some(params[0].1)
    else Lookup(params[1..], name)
  }

  /** The form for one bond: the bond's five fields under the names the
      service expects, the amount as its decimal text, plus the field that
      presses the calculate button. */
  function RequestFor(b: Bond): (req: PostRequest)
    ensures req.url == PriceUrl
    ensures |req.params| == 6
  {
    PostRequest(PriceUrl,
      [("RedemptionDate", b.date), ("Series", b.series), ("SerialNumber", b.serial),
       ("IssueDate", b.issueDate), ("Denomination", ShowNat(b.amount)),
       ("btnAdd.x", "CALCULATE")])
  }

  /** The text fields of the bond can be read back from the form it is sent
      as. */
  lemma RequestCarriesBond(b: Bond)
    ensures Lookup(RequestFor(b).params, "SerialNumber") == Some(b.serial)
    ensures Lookup(RequestFor(b).params, "Series") == Some(b.series)
    ensures Lookup(RequestFor(b).params, "IssueDate") == Some(b.issueDate)
    ensures Lookup(RequestFor(b).params, "RedemptionDate") == Some(b.date)
  {
    var ps := RequestFor(b).params;
    LookupAt(ps, 0, "RedemptionDate");
    LookupAt(ps, 1, "Series");
    LookupAt(ps, 2, "SerialNumber");
    LookupAt(ps, 3, "IssueDate");
  }

  /** The form carries the bond's amount as decimal digits that read back as
      the amount, and asks for the calculation. */
  lemma RequestCarriesAmount(b: Bond)
    ensures var d := Lookup(RequestFor(b).params, "Denomination");
            d.Some? && AllDigits(d.value) && ParseNat(d.value) == b.amount
    ensures Lookup(RequestFor(b).params, "btnAdd.x") == Some("CALCULATE")
  {
    var ps := RequestFor(b).params;
    LookupAt(ps, 4, "Denomination");
    LookupAt(ps, 5, "btnAdd.x");
    ParseShow(b.amount);
  }

  /** The value of the first field with a name is what `Lookup` finds. */
  lemma {:induction false} LookupAt(params: seq<(string, string)>, i: nat, name: string)
    requires i < |params| && params[i].0 == name
    requires forall j :: 0 <= j < i ==> params[j].0 != name
    ensures Lookup(params, name) == Some(params[i].1)
  {
    if i > 0 {
      LookupAt(params[1..], i - 1, name);
    }
  }

  /** The body of the response when its status is 200; the error otherwise. */
  function HandleResponse(status: int, body: string): (r: Result<string, PostError>)
    ensures r.Success? <==> status == 200
    ensures r.Success? ==> r.value == body
    ensures r.Failure? ==> r.error.status == status
  {
    if status == 200 then Success(body) else Failure(BadPostResponse(status))
  }
}
