/** The Azure role filter: printed as text, read back by the search service, and compared with the local subset test. */
module RoleFilter {
  import opened Wrappers
  import opened PyText
  import opened Sorting
  import opened TextOrder

  const DELIMITER: char := '|'
  const KNOWN_CHUNK_ROLES: seq<string> := ["transactions", "customer", "complaints"]
  const HEAD := "allowed_roles/all(r: not search.in(r, '"
  const TAIL := "', '|'))"

  datatype Error = DelimiterInRole | UnknownRoles(id: string, roles: set<string>)

  // ---- Printing ----

  /** `role.replace("'", "''")` */
  function Escape(s: string): string {
    if s == [] then [] else (if s[0] == '\'' then "''" else [s[0]]) + Escape(s[1..])
  }

  function EscapeAll(roles: seq<string>): seq<string> {
    if roles == [] then [] else [Escape(roles[0])] + EscapeAll(roles[1..])
  }

  /** The known roles the caller lacks. */
  function Missing(known: seq<string>, caller: set<string>): seq<string> {
    if known == [] then []
    else (if known[0] in caller then [] else [known[0]]) + Missing(known[1..], caller)
  }

  function Print(known: seq<string>, caller: set<string>): string {
    HEAD + Join(Sort(StringLe, EscapeAll(Missing(known, caller))), DELIMITER) + TAIL
  }

  predicate Ambiguous(caller: set<string>) {
    exists role :: role in caller && DELIMITER in role
  }

  function BuildRoleFilter(caller: set<string>): Result<string, Error> {
    if Ambiguous(caller) then Err(DelimiterInRole) else Ok(Print(KNOWN_CHUNK_ROLES, caller))
  }

  // ---- Reading, as the service does ----

  /** The rest of a quoted literal whose opening quote has been read: its value, and what follows it. */
  function ReadLiteral(s: string): Option<(string, string)> {
    if s == [] then None
    else if s[0] == '\'' && (|s| == 1 || s[1] != '\'') then Some(([], s[1..]))
    else
      var width := if s[0] == '\'' then 2 else 1;
      match ReadLiteral(s[width..])
      case None => None
      case Some((value, rest)) => Some(([s[0]] + value, rest))
  }

  /** Does the filter admit a document with these roles? None when the text is not such a filter. */
  function Evaluate(filter: string, roles: set<string>): Option<bool> {
    if !(HEAD <= filter) then None
    else
      match ReadLiteral(filter[|HEAD|..])
      case None => None
      case Some((list, rest)) =>
        if rest != TAIL[1..] then None
        else Some(forall r :: r in roles ==> r !in Split(list, DELIMITER))
  }

  // ---- Reading inverts printing ----

  lemma {:induction false} ReadEscaped(value: string, rest: string)
    requires rest != [] && rest[0] != '\''
    ensures ReadLiteral(Escape(value) + "'" + rest) == Some((value, rest))
  {
    if value == [] {
      assert Escape(value) + "'" + rest == ['\''] + rest;
    } else {
      ReadEscaped(value[1..], rest);
      var whole := Escape(value) + "'" + rest;
      var later := Escape(value[1..]) + "'" + rest;
      var width := if value[0] == '\'' then 2 else 1;
      assert whole == (if value[0] == '\'' then "''" else [value[0]]) + later;
      assert whole[width..] == later;
      assert [value[0]] + value[1..] == value;
    }
  }

  lemma EscapeIsInjective(a: string, b: string)
    requires Escape(a) == Escape(b)
    ensures a == b
  {
    ReadEscaped(a, ".");
    ReadEscaped(b, ".");
  }

  lemma {:induction false} EscapeAppend(a: string, b: string)
    ensures Escape(a + b) == Escape(a) + Escape(b)
  {
    if a == [] {
      assert a + b == b;
    } else {
      assert (a + b)[1..] == a[1..] + b;
      EscapeAppend(a[1..], b);
    }
  }

  /** Escaping each role and then joining is escaping the joined list. */
  lemma {:induction false} EscapeJoin(roles: seq<string>)
    ensures Join(EscapeAll(roles), DELIMITER) == Escape(Join(roles, DELIMITER))
  {
    if |roles| >= 1 {
      EscapeJoin(roles[1..]);
      if |roles| > 1 {
        assert EscapeAll(roles)[1..] == EscapeAll(roles[1..]);
        EscapeAppend(roles[0], [DELIMITER] + Join(roles[1..], DELIMITER));
        EscapeAppend([DELIMITER], Join(roles[1..], DELIMITER));
        var rest := Join(roles[1..], DELIMITER);
        assert roles[0] + [DELIMITER] + rest == roles[0] + ([DELIMITER] + rest);
      }
    }
  }

  // ---- What the filter means ----

  lemma {:induction false} MissingMeaning(known: seq<string>, caller: set<string>)
    ensures forall r :: r in Missing(known, caller) <==> r in known && r !in caller
  {
    if known != [] {
      MissingMeaning(known[1..], caller);
      assert known == [known[0]] + known[1..];
    }
  }

  lemma {:induction false} EscapeAllMeaning(roles: seq<string>, r: string)
    ensures r in EscapeAll(roles) <==> exists x :: x in roles && Escape(x) == r
  {
    if roles != [] {
      var rest := roles[1..];
      EscapeAllMeaning(rest, r);
      assert roles == [roles[0]] + rest;
      if r in EscapeAll(rest) {
        var x :| x in rest && Escape(x) == r;
        assert x in roles;
      } else if x :| x in roles && Escape(x) == r {
        assert x == roles[0] || x in rest;
      }
    }
  }

  /** Every escaped list is the escape of a list. */
  lemma {:induction false} Unescaped(escaped: seq<string>, roles: seq<string>) returns (plain: seq<string>)
    requires forall e :: e in escaped ==> e in EscapeAll(roles)
    ensures EscapeAll(plain) == escaped
  {
    if escaped == [] {
      plain := [];
    } else {
      EscapeAllMeaning(roles, escaped[0]);
      var first :| first in roles && Escape(first) == escaped[0];
      var rest := Unescaped(escaped[1..], roles);
      plain := [first] + rest;
      assert plain[1..] == rest;
    }
  }

  /** The printed list, unescaped: the missing roles in some order. */
  lemma PrintedList(known: seq<string>, caller: set<string>) returns (plain: seq<string>)
    ensures EscapeAll(plain) == Sort(StringLe, EscapeAll(Missing(known, caller)))
    ensures forall r :: r in plain <==> r in Missing(known, caller)
  {
    var missing := Missing(known, caller);
    StringLeIsOrder();
    SortKeepsMembers(StringLe, EscapeAll(missing));
    plain := Unescaped(Sort(StringLe, EscapeAll(missing)), missing);
    forall r ensures r in plain <==> r in missing {
      EscapeAllMeaning(plain, Escape(r));
      EscapeAllMeaning(missing, Escape(r));
      if r in plain {
        var x :| x in missing && Escape(x) == Escape(r);
        EscapeIsInjective(x, r);
      }
      if r in missing {
        var x :| x in plain && Escape(x) == Escape(r);
        EscapeIsInjective(x, r);
      }
    }
  }

  /** A vocabulary the filter can print without ambiguity. */
  ghost predicate Printable(known: seq<string>) {
    forall r :: r in known ==> r != "" && DELIMITER !in r
  }

  lemma ReadPrinted(list: string, roles: set<string>)
    ensures Evaluate(HEAD + Escape(list) + TAIL, roles) == Some(forall r :: r in roles ==> r !in Split(list, DELIMITER))
  {
    var filter := HEAD + Escape(list) + TAIL;
    assert filter[|HEAD|..] == Escape(list) + "'" + TAIL[1..];
    ReadEscaped(list, TAIL[1..]);
  }

  /** The printed filter admits a document exactly when the caller holds every known role it declares. */
  lemma FilterMeaning(known: seq<string>, caller: set<string>, roles: set<string>)
    requires Printable(known) && "" !in roles
    ensures Evaluate(Print(known, caller), roles) == Some(forall r :: r in roles && r in known ==> r in caller)
  {
    MissingMeaning(known, caller);
    var plain := PrintedList(known, caller);
    EscapeJoin(plain);
    ReadPrinted(Join(plain, DELIMITER), roles);
    if plain == [] {
      assert Join(plain, DELIMITER) == "" && Split("", DELIMITER) == [""];
      assert forall r :: r in known ==> r in caller;
    } else {
      SplitInvertsJoin(plain, DELIMITER);
    }
  }

  lemma KnownRolesArePrintable()
    ensures Printable(KNOWN_CHUNK_ROLES)
  {
    assert forall r :: r in KNOWN_CHUNK_ROLES ==> r == "transactions" || r == "customer" || r == "complaints";
  }

  /** The known roles the caller lacks, in alphabetical order. */
  function Lacked(caller: set<string>): seq<string> {
    Unless("complaints" in caller, "complaints")
    + Unless("customer" in caller, "customer")
    + Unless("transactions" in caller, "transactions")
  }

  lemma {:induction false} NothingToEscape(s: string)
    requires '\'' !in s
    ensures Escape(s) == s
  {
    if s != [] {
      NothingToEscape(s[1..]);
    }
  }

  lemma {:induction false} NoneToEscape(roles: seq<string>)
    requires forall r :: r in roles ==> '\'' !in r
    ensures EscapeAll(roles) == roles
  {
    if roles != [] {
      NothingToEscape(roles[0]);
      NoneToEscape(roles[1..]);
    }
  }

  lemma MissingOfThree(caller: set<string>)
    ensures Missing(KNOWN_CHUNK_ROLES, caller) ==
      Unless("transactions" in caller, "transactions")
      + (Unless("customer" in caller, "customer") + Unless("complaints" in caller, "complaints"))
  {
    assert KNOWN_CHUNK_ROLES[1..] == ["customer", "complaints"];
    assert ["customer", "complaints"][1..] == ["complaints"];
    assert ["complaints"][1..] == [];
    assert Missing(["complaints"], caller) == if "complaints" in caller then [] else ["complaints"];
  }

  lemma Alphabetical()
    ensures StringLe("complaints", "customer") && StringLe("customer", "transactions")
    ensures StringLe("complaints", "transactions")
  {
    assert "complaints"[1..] == "omplaints" && "customer"[1..] == "ustomer";
  }

  lemma LackedIsSorted(caller: set<string>)
    ensures Sorted(StringLe, Lacked(caller))
    ensures multiset(Lacked(caller)) == multiset(Missing(KNOWN_CHUNK_ROLES, caller))
  {
    hide StringLe, Unless, Sorted;
    Alphabetical();
    MissingOfThree(caller);
    var p, q, r := "complaints" in caller, "customer" in caller, "transactions" in caller;
    SortedThree("complaints", "customer", "transactions", p, q, r);
    SameThree("complaints", "customer", "transactions", p, q, r);
  }

  function Unless(held: bool, role: string): seq<string> {
    if held then [] else [role]
  }

  lemma SortedThree(a: string, b: string, c: string, p: bool, q: bool, r: bool)
    requires StringLe(a, b) && StringLe(b, c) && StringLe(a, c)
    ensures Sorted(StringLe, Unless(p, a) + Unless(q, b) + Unless(r, c))
  {
  }

  lemma SameThree(a: string, b: string, c: string, p: bool, q: bool, r: bool)
    ensures multiset(Unless(p, a) + Unless(q, b) + Unless(r, c))
         == multiset(Unless(r, c) + (Unless(q, b) + Unless(p, a)))
  {
  }

  lemma KnownRolesAreQuoteFree()
    ensures forall r :: r in KNOWN_CHUNK_ROLES ==> '\'' !in r
  {
    assert forall r :: r in KNOWN_CHUNK_ROLES ==> r == "transactions" || r == "customer" || r == "complaints";
  }

  /** A caller with a bar in a role is refused; for any other this is the filter's text, whole. */
  lemma FilterText(caller: set<string>)
    ensures BuildRoleFilter(caller) ==
      if exists role :: role in caller && '|' in role then Err(DelimiterInRole)
      else Ok("allowed_roles/all(r: not search.in(r, '" + Join(Lacked(caller), '|') + "', '|'))")
  {
    hide StringLe, Lacked, Missing, Sort, EscapeAll, Sorted, Antisymmetric, TotalPreorder;
    var missing := Missing(KNOWN_CHUNK_ROLES, caller);
    LackedIsSorted(caller);
    MissingMeaning(KNOWN_CHUNK_ROLES, caller);
    KnownRolesAreQuoteFree();
    NoneToEscape(missing);
    StringLeIsOrder();
    SortSorts(StringLe, missing);
    StringLeSeparates(Lacked(caller));
    SortedIsUnique(StringLe, Lacked(caller), Sort(StringLe, missing));
  }

  ghost predicate AzureAdmits(caller: set<string>, roles: set<string>) {
    match BuildRoleFilter(caller)
    case Ok(filter) => Evaluate(filter, roles) == Some(true)
    case Err(_) => false
  }

  /** The local index's test. */
  predicate LocalAdmits(caller: set<string>, roles: set<string>) {
    roles <= caller
  }

  ghost predicate IndexesAgree(roles: set<string>) {
    forall caller :: !Ambiguous(caller) ==> (AzureAdmits(caller, roles) <==> LocalAdmits(caller, roles))
  }

  function KnownRoles(): set<string> {
    set r | r in KNOWN_CHUNK_ROLES
  }

  lemma AzureMeaning(caller: set<string>, roles: set<string>)
    requires !Ambiguous(caller) && "" !in roles
    ensures AzureAdmits(caller, roles) <==> roles * KnownRoles() <= caller
  {
    KnownRolesArePrintable();
    FilterMeaning(KNOWN_CHUNK_ROLES, caller, roles);
  }

  /** The two indexes admit the same documents to every caller exactly when the document declares known roles only:
      an undeclared one is ignored by the filter, so it admits callers who lack that role. */
  lemma AgreementNeedsKnownRoles(roles: set<string>)
    requires "" !in roles
    ensures IndexesAgree(roles) <==> roles <= KnownRoles()
    ensures !Ambiguous(KnownRoles()) && AzureAdmits(KnownRoles(), roles)
  {
    KnownRolesArePrintable();
    AzureMeaning(KnownRoles(), roles);
    hide AzureAdmits;
    if roles <= KnownRoles() {
      forall caller | !Ambiguous(caller) ensures AzureAdmits(caller, roles) <==> LocalAdmits(caller, roles) {
        AzureMeaning(caller, roles);
        assert roles * KnownRoles() == roles;
      }
    }
  }

  /** Nothing of a caller's role names outside the known vocabulary reaches the filter text. */
  lemma {:induction false} OnlyKnownRolesArePrinted(known: seq<string>, a: set<string>, b: set<string>)
    requires forall r :: r in known ==> (r in a <==> r in b)
    ensures Missing(known, a) == Missing(known, b) && Print(known, a) == Print(known, b)
  {
    if known != [] {
      OnlyKnownRolesArePrinted(known[1..], a, b);
    }
  }

  // ---- The guard at ingestion ----

  datatype Declared = Declared(id: string, roles: set<string>)

  /** `add` checks every chunk before uploading any, and names the first offender. */
  method CheckRoles(chunks: seq<Declared>) returns (r: Result<seq<Declared>, Error>)
    ensures r.Ok? ==> r.value == chunks && forall c :: c in chunks ==> c.roles <= KnownRoles()
    ensures r.Err? ==>
      exists k :: 0 <= k < |chunks| && !(chunks[k].roles <= KnownRoles())
        && r.error == UnknownRoles(chunks[k].id, chunks[k].roles - KnownRoles())
        && forall j :: 0 <= j < k ==> chunks[j].roles <= KnownRoles()
  {
    for k := 0 to |chunks|
      invariant forall j :: 0 <= j < k ==> chunks[j].roles <= KnownRoles()
    {
      var unknown := chunks[k].roles - KnownRoles();
      assert forall r :: r in chunks[k].roles ==> r in KnownRoles() || r in unknown;
      if unknown != {} {
        return Err(UnknownRoles(chunks[k].id, unknown));
      }
    }
    r := Ok(chunks);
  }

  /** So everything `add` uploads is admitted by both indexes alike. */
  lemma UploadedChunksAgree(chunks: seq<Declared>, c: Declared)
    requires c in chunks && forall x :: x in chunks ==> x.roles <= KnownRoles()
    ensures IndexesAgree(c.roles)
  {
    KnownRolesArePrintable();
    AgreementNeedsKnownRoles(c.roles);
  }
}
