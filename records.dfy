/** What the parsers hand on: every transaction is a Debit or a Credit and starts uncategorized. */
module Records {
  datatype Kind = Debit | Credit

  /** The `type` field as the services write it. */
  function KindName(k: Kind): (r: string)
    ensures r == "Debit" || r == "Credit"
  {
    match k
    case Debit => "Debit"
    case Credit => "Credit"
  }

  /** The category every parsed transaction carries until the categorizer runs. */
  const Uncategorized: string := "Uncategorized"
}
