/**
 * The list the add-member dialog offers: cached users whose name, username or
 * email contains the search term (ignoring letter case), who are not members
 * already, and only once the term has three characters.
 */
module MemberPicker {
  import opened Wrappers
  import opened Text
  import opened Subsequences
  import opened ClientUser

  const MinTermLength := 3

  /** `f?.toLowerCase().includes(term.toLowerCase())`; a missing field matches nothing. */
  predicate FieldMatches(f: Option<string>, term: string) {
    f.Some? && Contains(Lower(f.value), Lower(term))
  }

  predicate Matches(u: User, term: string) {
    FieldMatches(u.nombre, term) || FieldMatches(u.usuario, term) || FieldMatches(u.email, term)
  }

  /** The filter's test on one cache value: present, with an id, matching, and not a member. */
  predicate Offered(entry: Option<User>, term: string, currentMembers: seq<string>) {
    entry.Some? && Truthy(entry.value.id) && Matches(entry.value, term)
    && entry.value.id.value !in currentMembers
  }

  /** `Object.values(usersMap).filter(...)`, in the order the values are listed. */
  function Filter(values: seq<Option<User>>, term: string, currentMembers: seq<string>): (r: seq<Option<User>>)
    ensures forall e :: e in r <==> e in values && Offered(e, term, currentMembers)
    ensures forall e :: multiset(r)[e] == if Offered(e, term, currentMembers) then multiset(values)[e] else 0
    ensures IsSubsequence(r, values)
  {
    if values == [] then []
    else
      assert values == [values[0]] + values[1..];
      if Offered(values[0], term, currentMembers) then [values[0]] + Filter(values[1..], term, currentMembers)
      else Filter(values[1..], term, currentMembers)
  }

  /** `filteredResults`. */
  function FilteredResults(values: seq<Option<User>>, term: string, currentMembers: seq<string>)
    : (r: seq<Option<User>>)
    ensures |term| < MinTermLength ==> r == []
    ensures |term| >= MinTermLength
            ==> IsSubsequence(r, values) && forall e :: e in r <==> e in values && Offered(e, term, currentMembers)
    ensures |term| >= MinTermLength
            ==> forall e :: multiset(r)[e] == if Offered(e, term, currentMembers) then multiset(values)[e] else 0
  {
    if |term| < MinTermLength then [] else Filter(values, term, currentMembers)
  }

  /** Nobody offered is a current member, and everybody offered has an id. */
  lemma NoMemberOffered(values: seq<Option<User>>, term: string, currentMembers: seq<string>, e: Option<User>)
    requires e in FilteredResults(values, term, currentMembers)
    ensures e.Some? && Truthy(e.value.id) && e.value.id.value !in currentMembers
  {
  }

  /** The case of the search term makes no difference. */
  lemma {:induction false} CaseOfTermIrrelevant(values: seq<Option<User>>, term: string, currentMembers: seq<string>)
    ensures Filter(values, term, currentMembers) == Filter(values, Lower(term), currentMembers)
    decreases |values|
  {
    LowerIdempotent(term);
    if values != [] {
      assert Offered(values[0], term, currentMembers) == Offered(values[0], Lower(term), currentMembers);
      CaseOfTermIrrelevant(values[1..], term, currentMembers);
    }
  }

  /** Growing the member list can only shrink the offer. */
  lemma {:induction false} MoreMembersFewerOffers(values: seq<Option<User>>, term: string,
                                                 members: seq<string>, more: seq<string>)
    requires forall m :: m in members ==> m in more
    ensures IsSubsequence(Filter(values, term, more), Filter(values, term, members))
    decreases |values|
  {
    if values != [] {
      MoreMembersFewerOffers(values[1..], term, members, more);
      var a, b := Filter(values[1..], term, more), Filter(values[1..], term, members);
      if Offered(values[0], term, more) {
        assert Offered(values[0], term, members);
        assert ([values[0]] + a)[1..] == a && ([values[0]] + b)[1..] == b;
      } else if Offered(values[0], term, members) {
        assert ([values[0]] + b)[1..] == b;
        SubsequenceOfTail(a, [values[0]] + b);
      }
    }
  }
}

/**
 * The task form's assignee picker: the project's members whose name or email
 * contains the trimmed, lower-cased search term; an empty term shows them all.
 */
module AssigneePicker {
  import opened Wrappers
  import opened Text
  import opened Subsequences
  import opened ClientUser

  /** `searchTerm.toLowerCase().trim()`. */
  function Query(term: string): string {
    Trim(Lower(term))
  }

  /** `m.nombre?.toLowerCase().includes(query) || m.email?.toLowerCase().includes(query)`. */
  predicate Matches(m: User, query: string) {
    (m.nombre.Some? && Contains(Lower(m.nombre.value), query))
    || (m.email.Some? && Contains(Lower(m.email.value), query))
  }

  function Filter(members: seq<User>, query: string): (r: seq<User>)
    ensures forall m :: m in r <==> m in members && Matches(m, query)
    ensures forall m :: multiset(r)[m] == if Matches(m, query) then multiset(members)[m] else 0
    ensures IsSubsequence(r, members)
  {
    if members == [] then []
    else
      assert members == [members[0]] + members[1..];
      if Matches(members[0], query) then [members[0]] + Filter(members[1..], query)
      else Filter(members[1..], query)
  }

  /** `filteredMembers`. */
  function FilteredMembers(members: seq<User>, term: string): (r: seq<User>)
    ensures Query(term) == [] ==> r == members
    ensures IsSubsequence(r, members)
    ensures Query(term) != [] ==> forall m :: m in r <==> m in members && Matches(m, Query(term))
    ensures Query(term) != []
            ==> forall m :: multiset(r)[m] == if Matches(m, Query(term)) then multiset(members)[m] else 0
  {
    var query := Query(term);
    if query == [] then
      SubsequenceReflexive(members);
      members
    else Filter(members, query)
  }

  /** A term of white space alone shows every member. */
  lemma BlankTermShowsAll(members: seq<User>, term: string)
    requires AllSpace(term)
    ensures FilteredMembers(members, term) == members
  {
    assert AllSpace(Lower(term));
    TrimAllSpace(Lower(term));
  }

  /** White space around the term and its letter case change nothing. */
  lemma PaddingAndCaseIrrelevant(members: seq<User>, pre: string, term: string, post: string)
    requires AllSpace(pre) && AllSpace(post)
    requires term != [] && !IsJsSpace(term[0]) && !IsJsSpace(term[|term| - 1])
    ensures FilteredMembers(members, pre + term + post) == Filter(members, Lower(term))
  {
    var l := Lower(pre + term + post);
    assert l == Lower(pre) + Lower(term) + Lower(post);
    assert AllSpace(Lower(pre)) && AllSpace(Lower(post));
    TrimPadded(Lower(pre), Lower(term), Lower(post));
  }

  /** A member with neither a name nor an email is shown only for an empty query. */
  lemma AnonymousOnlyUnfiltered(members: seq<User>, term: string, m: User)
    requires m.nombre.None? && m.email.None?
    ensures m in FilteredMembers(members, term) <==> m in members && Query(term) == []
  {
  }

  /** `onSelect({...member, email: member.email || "", usuario: member.nombre || ""})`. */
  function Selected(m: User): (s: User)
    ensures s.id == m.id && s.nombre == m.nombre && s.iniciales == m.iniciales
    ensures s.email.Some? && s.usuario.Some?
    ensures Truthy(m.email) ==> s.email == m.email
    ensures !Truthy(m.email) ==> s.email == Some("")
    ensures s.usuario.value == if Truthy(m.nombre) then m.nombre.value else ""
  {
    m.(email := Some(if Truthy(m.email) then m.email.value else ""),
       usuario := Some(if Truthy(m.nombre) then m.nombre.value else ""))
  }
}
