/**
 * The three REST callbacks. Each builds its find parameters, asks the
 * repository for rows, answers `null` when the repository reports none and
 * otherwise runs the fetch loop: skip private rows, join the names by id,
 * project, append.
 */
module Endpoints {
  import opened PhpValues
  import opened Records
  import opened Visibility
  import opened Queries

  /**
   * What a callback returns: `null`, the JSON encoding of the entries
   * (search and detail), or the entries array itself (department). Each
   * entry stands for the array the callback builds from it, `SummaryEntries`
   * or `DetailEntries`.
   */
  datatype Reply<T> = NullReply | Json(entries: seq<T>) | Array(entries: seq<T>)

  /** The user repository: the rows, in fetch order, that a find with these parameters yields. */
  type Repository = Params -> seq<Row>

  /**
   * The `while ( $users->fetch() )` loop: walks the rows in fetch order and
   * appends the projection of every non-private row to `$export_data`.
   */
  method Export<T>(users: seq<Row>, meta: Meta, shape: (Row, string, string) -> T)
    returns (exportData: seq<T>)
    requires NamesPresent(users, meta)
    ensures exportData == Project(users, meta, shape)
  {
    exportData := [];
    var i := 0;
    while i < |users|
      invariant 0 <= i <= |users|
      invariant NamesPresent(users[..i], meta)
      invariant exportData == Project(users[..i], meta, shape)
    {
      ProjectStep(users, meta, shape, i);
      var user := users[i];
      if !Private(user) {
        var allMetaForUser := meta[user.id];
        var firstName := allMetaForUser["first_name"][0];
        var lastName := allMetaForUser["last_name"][0];
        exportData := exportData + [shape(user, firstName, lastName)];
      }
      i := i + 1;
    }
    assert users[..i] == users;
  }

  /** What `search_users` returns for the rows its query fetched. */
  function SearchReply(users: seq<Row>, meta: Meta): Reply<Summary>
    requires NamesPresent(users, meta)
  {
    if 0 < |users| then Json(Project(users, meta, Summarize)) else NullReply
  }

  /** What `get_user_by_username` returns for the rows its query fetched. */
  function DetailReply(users: seq<Row>, meta: Meta): Reply<Detail>
    requires NamesPresent(users, meta)
  {
    if 0 < |users| then Json(Project(users, meta, Detailed)) else NullReply
  }

  /** What `get_users_by_department` returns for the rows its query fetched. */
  function DepartmentReply(users: seq<Row>, meta: Meta): Reply<Summary>
    requires NamesPresent(users, meta)
  {
    if 0 < |users| then Array(Project(users, meta, Summarize)) else NullReply
  }

  /** `search_users`: the inputs are the escaped search term and department. */
  method SearchUsers(userSearchTerms: string, searchDept: string, pods: Repository, meta: Meta)
    returns (reply: Reply<Summary>)
    requires NamesPresent(pods(SearchParams(userSearchTerms, searchDept)), meta)
    ensures reply == SearchReply(pods(SearchParams(userSearchTerms, searchDept)), meta)
  {
    var params := SearchParams(userSearchTerms, searchDept);
    var users := pods(params);
    if 0 < |users| {
      var exportData := Export(users, meta, Summarize);
      reply := Json(exportData);
    } else {
      reply := NullReply;
    }
  }

  /** `get_user_by_username`: the input is the escaped login. */
  method GetUserByUsername(username: string, pods: Repository, meta: Meta)
    returns (reply: Reply<Detail>)
    requires NamesPresent(pods(UsernameParams(username)), meta)
    ensures reply == DetailReply(pods(UsernameParams(username)), meta)
  {
    var params := UsernameParams(username);
    var users := pods(params);
    if 0 < |users| {
      var exportData := Export(users, meta, Detailed);
      reply := Json(exportData);
    } else {
      reply := NullReply;
    }
  }

  /** `get_users_by_department`: the input is the department code from the route. */
  method GetUsersByDepartment(departmentId: string, pods: Repository, meta: Meta)
    returns (reply: Reply<Summary>)
    requires NamesPresent(pods(DepartmentParams(departmentId)), meta)
    ensures reply == DepartmentReply(pods(DepartmentParams(departmentId)), meta)
  {
    var params := DepartmentParams(departmentId);
    var users := pods(params);
    if 0 < |users| {
      var exportData := Export(users, meta, Summarize);
      reply := Array(exportData);
    } else {
      reply := NullReply;
    }
  }

  /**
   * `null` exactly when the repository reports no rows; with at least one row
   * the reply is a list, empty exactly when every row is private.
   */
  lemma NullOnlyWithoutRows(users: seq<Row>, meta: Meta)
    requires NamesPresent(users, meta)
    ensures SearchReply(users, meta).NullReply? <==> |users| == 0
    ensures DetailReply(users, meta).NullReply? <==> |users| == 0
    ensures DepartmentReply(users, meta).NullReply? <==> |users| == 0
    ensures 0 < |users| ==>
      (SearchReply(users, meta).entries == [] <==> forall j :: 0 <= j < |users| ==> Private(users[j]))
    ensures 0 < |users| ==>
      (DetailReply(users, meta).entries == [] <==> forall j :: 0 <= j < |users| ==> Private(users[j]))
    ensures 0 < |users| ==>
      (DepartmentReply(users, meta).entries == [] <==> forall j :: 0 <= j < |users| ==> Private(users[j]))
  {
    ProjectEmptyIff(users, meta, Summarize);
    ProjectEmptyIff(users, meta, Detailed);
  }

  /**
   * No entry of any reply comes from a private row: entry `k` of every
   * reply is the projection of fetched row `Kept(users)[k]`, which is not
   * private, with its names from the metadata at that row's id.
   */
  lemma RepliesComeFromKeptRows(users: seq<Row>, meta: Meta)
    requires NamesPresent(users, meta) && 0 < |users|
    ensures var e := SearchReply(users, meta).entries; var idx := Kept(users);
      |e| == |idx| && forall k :: 0 <= k < |e| ==>
        !Private(users[idx[k]]) && ProjectedAt(users, meta, Summarize, e, idx, k)
    ensures var e := DetailReply(users, meta).entries; var idx := Kept(users);
      |e| == |idx| && forall k :: 0 <= k < |e| ==>
        !Private(users[idx[k]]) && ProjectedAt(users, meta, Detailed, e, idx, k)
    ensures DepartmentReply(users, meta).entries == SearchReply(users, meta).entries
  {
    ProjectSelectsKept(users, meta, Summarize);
    ProjectSelectsKept(users, meta, Detailed);
  }

  /** The detail reply never shows a truthy privacy flag. */
  lemma DetailFlagAlwaysFalsy(users: seq<Row>, meta: Meta)
    requires NamesPresent(users, meta) && 0 < |users|
    ensures forall k :: 0 <= k < |DetailReply(users, meta).entries| ==>
      !Truthy(DetailReply(users, meta).entries[k].privacyFlag)
  {
    DetailsNeverPrivate(users, meta);
    assert DetailReply(users, meta).entries == Project(users, meta, Detailed);
  }

  /** A repository that honours `limit` returns at most one user for a username lookup. */
  lemma UsernameLookupAtMostOne(username: string, pods: Repository, meta: Meta)
    requires NamesPresent(pods(UsernameParams(username)), meta)
    requires |pods(UsernameParams(username))| <= UsernameParams(username).limit
    ensures DetailReply(pods(UsernameParams(username)), meta).Json?
      ==> |DetailReply(pods(UsernameParams(username)), meta).entries| <= 1
  {
    ProjectSelectsKept(pods(UsernameParams(username)), meta, Detailed);
  }

  /**
   * The arrays the callbacks emit carry the profile's keys in declared order,
   * with `username` taken from the row's `user_login` and `website` from its
   * `user_url`.
   */
  lemma RepliesKeyedAsDeclared(users: seq<Row>, meta: Meta)
    requires NamesPresent(users, meta) && 0 < |users|
    ensures var e := SearchReply(users, meta).entries; var idx := Kept(users);
      |e| == |idx| && forall k :: 0 <= k < |e| ==>
        HasKeys(SummaryEntries(e[k]), SummaryKeys)
        && SummaryEntries(e[k])[0] == ("username", Str(users[idx[k]].userLogin))
    ensures var e := DetailReply(users, meta).entries; var idx := Kept(users);
      |e| == |idx| && forall k :: 0 <= k < |e| ==>
        HasKeys(DetailEntries(e[k]), DetailKeys)
        && DetailEntries(e[k])[2] == ("website", Str(users[idx[k]].userUrl))
  {
    RepliesComeFromKeptRows(users, meta);
    var s, d, idx := SearchReply(users, meta).entries, DetailReply(users, meta).entries, Kept(users);
    forall k | 0 <= k < |s|
      ensures SummaryEntries(s[k])[0] == ("username", Str(users[idx[k]].userLogin))
    {
      assert ProjectedAt(users, meta, Summarize, s, idx, k);
    }
    forall k | 0 <= k < |d|
      ensures DetailEntries(d[k])[2] == ("website", Str(users[idx[k]].userUrl))
    {
      assert ProjectedAt(users, meta, Detailed, d, idx, k);
    }
  }

  /** Rows fetched in last-name order give list replies in last-name order. */
  lemma ListRepliesByLastName(users: seq<Row>, meta: Meta, le: (string, string) -> bool)
    requires NamesPresent(users, meta) && 0 < |users|
    requires FetchedByLastName(users, meta, le)
    ensures var e := SearchReply(users, meta).entries;
      forall k, l :: 0 <= k < l < |e| ==> le(e[k].lastName, e[l].lastName)
    ensures var e := DepartmentReply(users, meta).entries;
      forall k, l :: 0 <= k < l < |e| ==> le(e[k].lastName, e[l].lastName)
  {
    SummariesByLastName(users, meta, le);
    assert SearchReply(users, meta).entries == Project(users, meta, Summarize);
    assert DepartmentReply(users, meta).entries == Project(users, meta, Summarize);
  }
}
