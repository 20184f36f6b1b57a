/** The header's auth button (components/auth-button.tsx): the name it greets
    the user with, and whether it greets or offers sign-in links. */
module AuthButton {
  import opened Wrappers
  import opened Strings
  import opened Remote

  /** The session claims the component reads. */
  datatype Claims = Claims(email: Option<string>, sub: Option<string>)

  /** The `customer_info` row selected for the user (only its `fullname`). */
  datatype CustomerInfo = CustomerInfo(fullname: Option<string>)

  /** Signed out: the sign-in and sign-up links. Signed in: "Hey, <name>!". */
  datatype View = SignInLinks | Greeting(displayName: string)

  /** The calls made and what is shown. */
  datatype Rendered = Rendered(trace: seq<Effect>, view: View)

  const FullnameColumn := "fullname"

  /** `user?.email || ""`. */
  function EmailName(claims: Option<Claims>): string
  {
    if claims.Some? && claims.value.email.Some? then claims.value.email.value else ""
  }

  /** `user?.sub` is truthy: present and non-empty. */
  predicate HasSubject(claims: Option<Claims>)
  {
    claims.Some? && claims.value.sub.Some? && claims.value.sub.value != ""
  }

  /** `settings?.fullname` is truthy. */
  predicate HasFullname(info: Option<CustomerInfo>)
  {
    info.Some? && info.value.fullname.Some? && info.value.fullname.value != ""
  }

  /** `fullname.split(" ")[0]`: everything before the first space. */
  function FirstName(fullname: string): (name: string)
    ensures ' ' !in name
    ensures |name| <= |fullname| && name == fullname[..|name|]
    ensures |name| == |fullname| || fullname[|name|] == ' '
  {
    FirstPiece(fullname, ' ');
    Split(fullname, ' ')[0]
  }

  /** The greeting name; `info` is what the `customer_info` lookup returns. It
      is consulted only when there is a subject claim and a non-empty full name. */
  function DisplayName(claims: Option<Claims>, info: Option<CustomerInfo>): (name: string)
    ensures !(HasSubject(claims) && HasFullname(info)) ==> name == EmailName(claims)
    ensures HasSubject(claims) && HasFullname(info) ==>
      var full := info.value.fullname.value;
      && ' ' !in name
      && |name| <= |full| && name == full[..|name|]
      && (|name| == |full| || full[|name|] == ' ')
  {
    if HasSubject(claims) && HasFullname(info) then FirstName(info.value.fullname.value)
    else EmailName(claims)
  }

  /** AuthButton. */
  function Render(claims: Option<Claims>, info: Option<CustomerInfo>): (r: Rendered)
    ensures r.view == SignInLinks <==> claims.None?
    ensures claims.Some? ==> r.view == Greeting(DisplayName(claims, info))
    ensures |r.trace| >= 1 && r.trace[0] == GetClaims
    ensures !HasSubject(claims) ==> r.trace == [GetClaims]
    ensures HasSubject(claims) ==>
      r.trace == [GetClaims, SelectSingle(CustomerInfoTable, FullnameColumn, CustomerIdColumn, claims.value.sub.value)]
  {
    var trace :=
      if HasSubject(claims)
      then [GetClaims, SelectSingle(CustomerInfoTable, FullnameColumn, CustomerIdColumn, claims.value.sub.value)]
      else [GetClaims];
    match claims
    case None => Rendered(trace, SignInLinks)
    case Some(_) => Rendered(trace, Greeting(DisplayName(claims, info)))
  }

  /** Without a subject claim no lookup is made, so the lookup's answer cannot
      matter: the greeting is the email, or "" when there is none. */
  lemma NoSubjectIgnoresLookup(claims: Option<Claims>, info1: Option<CustomerInfo>, info2: Option<CustomerInfo>)
    requires !HasSubject(claims)
    ensures Render(claims, info1) == Render(claims, info2)
    ensures claims.Some? ==> Render(claims, info1).view == Greeting(EmailName(claims))
  {
  }

  /** A full name of one word is shown whole. */
  lemma OneWordFullname(full: string)
    requires ' ' !in full
    ensures FirstName(full) == full
  {
  }

  /** A full name starting with a space yields an empty greeting name. */
  lemma LeadingSpaceGivesEmptyName(full: string)
    requires |full| >= 1 && full[0] == ' '
    ensures FirstName(full) == ""
  {
    var name := FirstName(full);
    assert forall k :: 1 <= k <= |full| ==> full[..k][0] == ' ';
  }
}
