/** transformer.py: `GitHubDataTransformer.transform_repository_metadata`.
    A raised exception inside its `try` returns None, so each field below is
    `Some(value)` or `None` for "this lookup raises". `datetime.now(timezone.utc)`
    is the parameter `extractedAt`. */
module Transformer {
  import opened Wrappers
  import opened Values
  import opened Timestamps

  /** The keys of the record the transformer builds, in dict order. */
  const PROJECT_KEYS: seq<string> := [
    "id", "name", "owner_login", "description", "stargazer_count", "fork_count",
    "primary_language", "created_at", "pushed_at", "license_name",
    "is_archived", "is_disabled", "is_fork", "url", "last_extracted_at"
  ]

  /** `repository.get("owner", {}).get("login")`: raises unless the owner is a
      dict (or absent, which reads as `{}`). */
  function OwnerLogin(repo: map<string, Value>): (r: Option<Value>)
    ensures r.None? <==> "owner" in repo && !repo["owner"].Object?
    ensures "owner" !in repo ==> r == Some(Null)
    ensures r.Some? && "owner" in repo ==> r.value == Get(repo["owner"].fields, "login")
  {
    match GetOr(repo, "owner", Object(map[]))
    case Object(owner) => Some(Get(owner, "login"))
    case _ => None
  }

  /** `repository.get(key, {}).get("name") if repository.get(key) else None`. */
  function NestedName(repo: map<string, Value>, key: string): (r: Option<Value>)
    ensures !Truthy(Get(repo, key)) ==> r == Some(Null)
    ensures Truthy(Get(repo, key)) ==> (r.Some? <==> repo[key].Object?)
    ensures Truthy(Get(repo, key)) && r.Some? ==> r.value == Get(repo[key].fields, "name")
  {
    if !Truthy(Get(repo, key)) then Some(Null)
    else
      match repo[key]
      case Object(parent) => Some(Get(parent, "name"))
      case _ => None
  }

  /** `datetime.strptime(repository[key], "%Y-%m-%dT%H:%M:%SZ").replace(tzinfo=utc)
      if repository.get(key) else None`. */
  function DateField(repo: map<string, Value>, key: string): (r: Option<Value>)
    ensures !Truthy(Get(repo, key)) ==> r == Some(Null)
    ensures Truthy(Get(repo, key)) ==>
      (r.Some? <==> repo[key].Str? && ParseTimestamp(repo[key].s).Some?)
    ensures Truthy(Get(repo, key)) && r.Some? ==>
      r.value.Time? && ValidDateTime(r.value.t) && FormatTimestamp(r.value.t) == repo[key].s
  {
    if !Truthy(Get(repo, key)) then Some(Null)
    else
      match repo[key]
      case Str(text) =>
        (match ParseTimestamp(text)
         case Some(dt) => FormatParse(text); Some(Time(dt))
         case None => None)
      case _ => None
  }

  /** The dict the transformer returns, one field per key of `PROJECT_KEYS`. */
  datatype Project = Project(
    id: Value, name: Value, ownerLogin: Value, description: Value,
    stargazerCount: Value, forkCount: Value, primaryLanguage: Value,
    createdAt: Value, pushedAt: Value, licenseName: Value,
    isArchived: Value, isDisabled: Value, isFork: Value, url: Value,
    lastExtractedAt: Value)
  {
    /** The values in the order of `PROJECT_KEYS`. */
    function Values(): (vs: seq<Value>)
      ensures |vs| == |PROJECT_KEYS|
    {
      [id, name, ownerLogin, description, stargazerCount, forkCount, primaryLanguage,
       createdAt, pushedAt, licenseName, isArchived, isDisabled, isFork, url, lastExtractedAt]
    }

    /** The record as the Python dict: `PROJECT_KEYS[i]` maps to `Values()[i]`. */
    function AsDict(): map<string, Value> {
      ZipMap(PROJECT_KEYS, Values())
    }
  }

  /** `transform_repository_metadata(raw_repo_data)`. */
  function TransformRepositoryMetadata(raw: Value, extractedAt: DateTime): (r: Option<Project>)
    ensures !Truthy(raw) ==> r.None?
    ensures r.Some? ==> raw.Object?
    ensures r.Some? ==> Truthy(r.value.id) && Truthy(r.value.name) && Truthy(r.value.ownerLogin)
    ensures r.Some? ==> r.value.lastExtractedAt == Time(extractedAt)
  {
    if !Truthy(raw) then None
    else
      match raw
      case Object(repo) =>
        var owner := OwnerLogin(repo);
        var language := NestedName(repo, "primaryLanguage");
        var created := DateField(repo, "createdAt");
        var pushed := DateField(repo, "pushedAt");
        var license := NestedName(repo, "licenseInfo");
        if owner.None? || language.None? || created.None? || pushed.None? || license.None? then None
        else
          var record := Project(
            Get(repo, "id"), Get(repo, "name"), owner.value, Get(repo, "description"),
            Get(repo, "stargazerCount"), Get(repo, "forkCount"), language.value,
            created.value, pushed.value, license.value,
            Get(repo, "isArchived"), Get(repo, "isDisabled"), Get(repo, "isFork"),
            Get(repo, "url"), Time(extractedAt));
          if Truthy(record.id) && Truthy(record.name) && Truthy(record.ownerLogin) then
            Some(record)
          else None
      // any other truthy value has no `.get`: AttributeError
      case _ => None
  }

  /** The plain fields are copied unchanged from their source keys. */
  lemma CopiedFields(raw: Value, extractedAt: DateTime)
    requires TransformRepositoryMetadata(raw, extractedAt).Some?
    ensures var r := TransformRepositoryMetadata(raw, extractedAt).value;
            var repo := raw.fields;
            && r.id == Get(repo, "id")
            && r.name == Get(repo, "name")
            && r.description == Get(repo, "description")
            && r.stargazerCount == Get(repo, "stargazerCount")
            && r.forkCount == Get(repo, "forkCount")
            && r.isArchived == Get(repo, "isArchived")
            && r.isDisabled == Get(repo, "isDisabled")
            && r.isFork == Get(repo, "isFork")
            && r.url == Get(repo, "url")
  {
  }

  /** `owner_login` is the owner's `login`; the language and the licence are the
      parent's `name`, or None when the parent is absent or falsy. */
  lemma NestedFields(raw: Value, extractedAt: DateTime)
    requires TransformRepositoryMetadata(raw, extractedAt).Some?
    ensures var r := TransformRepositoryMetadata(raw, extractedAt).value;
            var repo := raw.fields;
            && (r.ownerLogin == if "owner" in repo then Get(repo["owner"].fields, "login") else Null)
            && (r.primaryLanguage ==
                  if Truthy(Get(repo, "primaryLanguage")) then Get(repo["primaryLanguage"].fields, "name") else Null)
            && (r.licenseName ==
                  if Truthy(Get(repo, "licenseInfo")) then Get(repo["licenseInfo"].fields, "name") else Null)
  {
  }

  /** A date is None when absent or falsy; otherwise it is the UTC time whose
      canonical text is exactly the source string. */
  lemma DateFields(raw: Value, extractedAt: DateTime, key: string)
    requires TransformRepositoryMetadata(raw, extractedAt).Some?
    requires key == "createdAt" || key == "pushedAt"
    ensures var r := TransformRepositoryMetadata(raw, extractedAt).value;
            var date := if key == "createdAt" then r.createdAt else r.pushedAt;
            var repo := raw.fields;
            && (!Truthy(Get(repo, key)) ==> date == Null)
            && (Truthy(Get(repo, key)) ==>
                  && repo[key].Str?
                  && date.Time?
                  && ValidDateTime(date.t)
                  && FormatTimestamp(date.t) == repo[key].s)
  {
    var repo := raw.fields;
    if Truthy(Get(repo, key)) {
      FormatParse(repo[key].s);
    }
  }

  /** A truthy date that is not a canonical timestamp makes the whole result None. */
  lemma MalformedDateGivesNone(repo: map<string, Value>, key: string, extractedAt: DateTime)
    requires key == "createdAt" || key == "pushedAt"
    requires Truthy(Get(repo, key))
    requires !repo[key].Str? || ParseTimestamp(repo[key].s).None?
    ensures TransformRepositoryMetadata(Object(repo), extractedAt).None?
  {
  }

  /** The inputs the transformer accepts: a dict whose nested objects have
      the shape the lookups need, whose dates parse, and whose id, name and
      owner login are truthy. */
  predicate Transformable(repo: map<string, Value>) {
    && ("owner" in repo ==> repo["owner"].Object?)
    && Truthy(Get(repo, "id"))
    && Truthy(Get(repo, "name"))
    && Truthy(if "owner" in repo then Get(repo["owner"].fields, "login") else Null)
    && (Truthy(Get(repo, "primaryLanguage")) ==> repo["primaryLanguage"].Object?)
    && (Truthy(Get(repo, "licenseInfo")) ==> repo["licenseInfo"].Object?)
    && (Truthy(Get(repo, "createdAt")) ==>
          repo["createdAt"].Str? && ParseTimestamp(repo["createdAt"].s).Some?)
    && (Truthy(Get(repo, "pushedAt")) ==>
          repo["pushedAt"].Str? && ParseTimestamp(repo["pushedAt"].s).Some?)
  }

  /** The transformer returns a record exactly for the transformable dicts. */
  lemma TransformSucceedsIff(raw: Value, extractedAt: DateTime)
    ensures TransformRepositoryMetadata(raw, extractedAt).Some? <==>
              raw.Object? && Transformable(raw.fields)
  {
  }
}
