/**
 * The find parameters each endpoint hands to the repository, and the where
 * clauses built by concatenating the inputs into quoted SQL literals. The
 * search term, department and login arrive escaped; the department code is
 * concatenated unescaped and is digits-only because of its route pattern. What a clause selects is decided by the database; what is stated
 * here is how the clause is put together and that each input stays inside its
 * own literal: a MySQL lexer reading the clause back recovers the inputs.
 */
module Queries {
  import opened Wrappers

  /** `$params`: `limit` (-1 for no limit), `orderby` when given, and `where`. */
  datatype Params = Params(limit: int, orderBy: Option<string>, whereClause: string)

  const ByLastNameAscending: string := "last_name.meta_value ASC"

  /** The text of each clause up to and including the quote that opens its literal. */
  const SearchNameOpening: string := "name_search.meta_value Like \""
  const SearchDeptOpening: string := " AND department.meta_value LIKE \""
  const UsernameOpening: string := "t.user_login=\""
  const DepartmentOpening: string := "department_code.meta_value = \""

  /** `name_search.meta_value Like "%terms%" AND department.meta_value LIKE "%dept%"` */
  function SearchWhere(userSearchTerms: string, searchDept: string): string {
    SearchNameOpening + "%" + userSearchTerms + "%" + "\""
      + SearchDeptOpening + "%" + searchDept + "%" + "\""
  }

  /** `t.user_login="username"` */
  function UsernameWhere(username: string): string {
    UsernameOpening + username + "\""
  }

  /** `department_code.meta_value = "id"` */
  function DepartmentWhere(departmentId: string): string {
    DepartmentOpening + departmentId + "\""
  }

  function SearchParams(userSearchTerms: string, searchDept: string): Params {
    Params(-1, Some(ByLastNameAscending), SearchWhere(userSearchTerms, searchDept))
  }

  function UsernameParams(username: string): Params {
    Params(1, None, UsernameWhere(username))
  }

  function DepartmentParams(departmentId: string): Params {
    Params(-1, Some(ByLastNameAscending), DepartmentWhere(departmentId))
  }

  /**
   * Text that stays inside a double-quoted MySQL literal: no bare `"`, and
   * every backslash starts a two-character escape. The output of the SQL
   * escaping the endpoints apply to their inputs has this shape.
   */
  predicate Escaped(s: string)
    decreases |s|
  {
    if s == [] then true
    else if s[0] == '\\' then |s| >= 2 && Escaped(s[2..])
    else s[0] != '"' && Escaped(s[1..])
  }

  predicate IsDigits(s: string) {
    forall k :: 0 <= k < |s| ==> '0' <= s[k] <= '9'
  }

  function Shift(o: Option<nat>, offset: nat): Option<nat> {
    match o
    case None => None
    case Some(i) => Some(i + offset)
  }

  /**
   * Reads a double-quoted MySQL literal whose opening quote has already been
   * consumed and returns the position of its closing quote: a backslash
   * escapes the next character and a doubled quote stands for one quote.
   */
  function CloseQuote(s: string): (r: Option<nat>)
    ensures r.Some? ==> r.value < |s| && s[r.value] == '"'
    ensures r.Some? ==> r.value + 1 == |s| || s[r.value + 1] != '"'
    decreases |s|
  {
    if s == [] then None
    else if s[0] == '\\' then (if |s| < 2 then None else Shift(CloseQuote(s[2..]), 2))
    else if s[0] == '"' then
      (if |s| >= 2 && s[1] == '"' then Shift(CloseQuote(s[2..]), 2) else Some(0))
    else Shift(CloseQuote(s[1..]), 1)
  }

  /**
   * Splits `w` into `opening`, the body of the literal the opening's final
   * quote starts, and what follows the literal's closing quote.
   */
  function SplitLiteral(w: string, opening: string): (r: Option<(string, string)>)
    ensures r.Some? ==> w == opening + r.value.0 + "\"" + r.value.1
  {
    if |opening| <= |w| && w[..|opening|] == opening then
      var s := w[|opening|..];
      match CloseQuote(s)
      case None => None
      case Some(i) =>
        assert s == s[..i] + "\"" + s[i + 1..];
        assert w == opening + s;
        Some((s[..i], s[i + 1..]))
    else
      None
  }

  /** A `LIKE` pattern of the form `%...%`. */
  predicate Wildcarded(lit: string) {
    |lit| >= 2 && lit[0] == '%' && lit[|lit| - 1] == '%'
  }

  /** Recovers the search term and department from a search where clause. */
  function ParseSearchWhere(w: string): Option<(string, string)> {
    match SplitLiteral(w, SearchNameOpening)
    case None => None
    case Some((lit1, rest)) =>
      match SplitLiteral(rest, SearchDeptOpening)
      case None => None
      case Some((lit2, tail)) =>
        if tail == [] && Wildcarded(lit1) && Wildcarded(lit2) then
          Some((lit1[1..|lit1| - 1], lit2[1..|lit2| - 1]))
        else
          None
  }

  /** Recovers the login from a username where clause. */
  function ParseUsernameWhere(w: string): Option<string> {
    match SplitLiteral(w, UsernameOpening)
    case None => None
    case Some((lit, tail)) => if tail == [] then Some(lit) else None
  }

  /** Recovers the department code from a department where clause. */
  function ParseDepartmentWhere(w: string): Option<string> {
    match SplitLiteral(w, DepartmentOpening)
    case None => None
    case Some((lit, tail)) => if tail == [] then Some(lit) else None
  }

  /** Escaped text never closes the literal: the lexer steps over it whole. */
  lemma {:induction false} CloseQuoteSkipsEscaped(t: string, rest: string)
    requires Escaped(t)
    ensures CloseQuote(t + rest) == Shift(CloseQuote(rest), |t|)
    decreases |t|
  {
    if t == [] {
      assert t + rest == rest;
    } else if t[0] == '\\' {
      assert (t + rest)[2..] == t[2..] + rest;
      CloseQuoteSkipsEscaped(t[2..], rest);
    } else {
      assert (t + rest)[1..] == t[1..] + rest;
      CloseQuoteSkipsEscaped(t[1..], rest);
    }
  }

  lemma {:induction false} EscapedConcat(a: string, b: string)
    requires Escaped(a) && Escaped(b)
    ensures Escaped(a + b)
    decreases |a|
  {
    if a == [] {
      assert a + b == b;
    } else if a[0] == '\\' {
      assert (a + b)[2..] == a[2..] + b;
      EscapedConcat(a[2..], b);
    } else {
      assert (a + b)[1..] == a[1..] + b;
      EscapedConcat(a[1..], b);
    }
  }

  /** The department route admits only digits, and digits need no escaping. */
  lemma {:induction false} DigitsAreEscaped(s: string)
    requires IsDigits(s)
    ensures Escaped(s)
    decreases |s|
  {
    if s != [] {
      assert IsDigits(s[1..]);
      DigitsAreEscaped(s[1..]);
    }
  }

  lemma SplitLiteralAt(w: string, opening: string, s: string, i: nat)
    requires w == opening + s
    requires CloseQuote(s) == Some(i)
    ensures SplitLiteral(w, opening) == Some((s[..i], s[i + 1..]))
  {
    assert w[..|opening|] == opening && w[|opening|..] == s;
  }

  lemma ConcatAssoc(a: string, b: string, c: string, d: string)
    ensures a + b + c + d == a + (b + (c + d))
  {
  }

  lemma CloseQuoteAtQuote(tail: string)
    requires tail == [] || tail[0] != '"'
    ensures CloseQuote("\"" + tail) == Some(0)
  {
    var s := "\"" + tail;
    assert s[0] == '"';
    assert |s| >= 2 ==> s[1] == tail[0];
  }

  /** An escaped literal body followed by a genuine closing quote splits off exactly. */
  lemma SplitLiteralOfEscaped(opening: string, body: string, tail: string)
    requires Escaped(body)
    requires tail == [] || tail[0] != '"'
    ensures SplitLiteral(opening + body + "\"" + tail, opening) == Some((body, tail))
  {
    var rest := "\"" + tail;
    var s := body + rest;
    ConcatAssoc(opening, body, "\"", tail);
    CloseQuoteSkipsEscaped(body, rest);
    CloseQuoteAtQuote(tail);
    SplitLiteralAt(opening + s, opening, s, |body|);
    assert s[..|body|] == body;
    assert s[|body| + 1..] == rest[1..] == tail;
  }

  /** The search clause is two literals, `%term%` and `%dept%`, after their openings. */
  lemma SearchWhereShape(userSearchTerms: string, searchDept: string)
    ensures SearchWhere(userSearchTerms, searchDept)
      == SearchNameOpening + ("%" + userSearchTerms + "%") + "\""
         + (SearchDeptOpening + ("%" + searchDept + "%") + "\"")
  {
  }

  /** Wrapping escaped text in `%` keeps it escaped, and the wrapping is undone by stripping. */
  lemma Wildcard(s: string)
    requires Escaped(s)
    ensures var lit := "%" + s + "%";
      Escaped(lit) && Wildcarded(lit) && lit[1..|lit| - 1] == s
  {
    EscapedConcat("%", s);
    EscapedConcat("%" + s, "%");
  }

  /**
   * Each escaped search input lands, wrapped in `%`, in its own literal: the
   * clause reads back as the two inputs (so an empty input gives `%%`).
   */
  lemma SearchWhereRoundTrip(userSearchTerms: string, searchDept: string)
    requires Escaped(userSearchTerms) && Escaped(searchDept)
    ensures ParseSearchWhere(SearchWhere(userSearchTerms, searchDept)) == Some((userSearchTerms, searchDept))
  {
    var lit1, lit2 := "%" + userSearchTerms + "%", "%" + searchDept + "%";
    Wildcard(userSearchTerms);
    Wildcard(searchDept);
    var rest := SearchDeptOpening + lit2 + "\"";
    SearchWhereShape(userSearchTerms, searchDept);
    assert rest[0] == ' ';
    SplitLiteralOfEscaped(SearchNameOpening, lit1, rest);
    assert rest + [] == rest;
    SplitLiteralOfEscaped(SearchDeptOpening, lit2, []);
  }

  /** The escaped login is the whole of the one literal in the username clause. */
  lemma UsernameWhereRoundTrip(username: string)
    requires Escaped(username)
    ensures ParseUsernameWhere(UsernameWhere(username)) == Some(username)
  {
    assert UsernameWhere(username) == UsernameOpening + username + "\"" + [];
    SplitLiteralOfEscaped(UsernameOpening, username, []);
  }

  /** The department code is the whole of the one literal in the department clause. */
  lemma DepartmentWhereRoundTrip(departmentId: string)
    requires Escaped(departmentId)
    ensures ParseDepartmentWhere(DepartmentWhere(departmentId)) == Some(departmentId)
  {
    assert DepartmentWhere(departmentId) == DepartmentOpening + departmentId + "\"" + [];
    SplitLiteralOfEscaped(DepartmentOpening, departmentId, []);
  }

  /** Distinct escaped inputs give distinct search clauses. */
  lemma SearchWhereInjective(t1: string, d1: string, t2: string, d2: string)
    requires Escaped(t1) && Escaped(d1) && Escaped(t2) && Escaped(d2)
    requires SearchWhere(t1, d1) == SearchWhere(t2, d2)
    ensures t1 == t2 && d1 == d2
  {
    SearchWhereRoundTrip(t1, d1);
    SearchWhereRoundTrip(t2, d2);
  }
}
