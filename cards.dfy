/**
 * `card` and `ocard`, reduced to the decisions they make about a fetched
 * record: whether there is an avatar image, whether there is a homepage link,
 * and, for a repository, the star count shown. The markup itself, the text
 * escaping (`escape`, which relies on the DOM) and the colour are not modelled.
 * A builder can throw: reading a property of `null`, or calling `startsWith`
 * on a truthy value that is not a string.
 */
module Cards {
  import opened Wrappers
  import opened JsValues

  /** The JavaScript `TypeError` a builder can throw. */
  datatype RenderError = TypeError

  /** What a card shows, as far as the model follows it. */
  datatype View =
    | RepoView(avatar: Option<Json>, stars: Json, homepage: Option<string>)
    | OrgView(avatar: Option<Json>, homepage: Option<string>)

  /** The property holds a string that begins with `http`. */
  predicate HttpString(v: Option<Json>) {
    v.Some? && v.value.Str? && "http" <= v.value.s
  }

  /** `x && x.startsWith('http')` on a property `x` that may be absent: the homepage link, if any. */
  function HomeLink(field: Option<Json>): (r: Result<Option<string>, RenderError>)
    ensures r.Failure? <==> TruthyField(field) && !field.value.Str?
    ensures r.Success? ==> (r.value.Some? <==> HttpString(field))
    ensures r.Success? && r.value.Some? ==> field == Some(Str(r.value.value))
  {
    match field
    case None => Success(None)
    case Some(v) =>
      if !Truthy(v) then Success(None)
      else match v
        case Str(s) => Success(if "http" <= s then Some(s) else None)
        case _ => Failure(TypeError)
  }

  /** `x ? <img src=...> : ''`: the image source, present exactly when the value is truthy. */
  function Avatar(field: Option<Json>): (r: Option<Json>)
    ensures r.Some? <==> TruthyField(field)
    ensures r.Some? ==> r == field
  {
    if TruthyField(field) then field else None
  }

  /** `repo.owner?.avatar_url`: `undefined` when the owner is `null` or `undefined`. */
  function OwnerAvatar(repo: Json): Option<Json> {
    var owner := Get(repo, "owner");
    if Nullish(owner) then None else Get(owner.value, "avatar_url")
  }

  /**
   * `card(repo, color)`. Besides reading a property of `null` and the
   * homepage test, it throws when one of the values it turns into a string
   * throws on conversion: the name (`escape`), the description unless
   * nullish, `html_url` (`attrs`), the star count (`String`) and a truthy
   * owner avatar (`attrs`).
   */
  function RepoCard(repo: Json): (r: Result<View, RenderError>)
    ensures r.Failure? <==>
      || repo.Null?
      || ConversionThrows(Get(repo, "name"))
      || ConversionThrows(Get(repo, "description"))
      || ConversionThrows(Get(repo, "html_url"))
      || ConversionThrows(Get(repo, "stargazers_count"))
      || HomeLink(Get(repo, "homepage")).Failure?
      || ConversionThrows(OwnerAvatar(repo))
    ensures r.Success? ==> r.value.RepoView?
    ensures r.Success? ==> (r.value.homepage.Some? <==> HttpString(Get(repo, "homepage")))
    ensures r.Success? && r.value.homepage.Some? ==> Get(repo, "homepage") == Some(Str(r.value.homepage.value))
    ensures r.Success? && Nullish(Get(repo, "stargazers_count")) ==> r.value.stars == Number(0)
    ensures r.Success? && !Nullish(Get(repo, "stargazers_count")) ==> r.value.stars == Get(repo, "stargazers_count").value
    ensures r.Success? ==> (r.value.avatar.Some? <==>
      !Nullish(Get(repo, "owner")) && TruthyField(Get(Get(repo, "owner").value, "avatar_url")))
  {
    if repo.Null? then Failure(TypeError)
    else if || ConversionThrows(Get(repo, "name"))
            || ConversionThrows(Get(repo, "description"))
            || ConversionThrows(Get(repo, "html_url"))
            || ConversionThrows(Get(repo, "stargazers_count"))
    then Failure(TypeError)
    else
      match HomeLink(Get(repo, "homepage"))
      case Failure(e) => Failure(e)
      case Success(home) =>
        var count := Get(repo, "stargazers_count");
        var avatar := Avatar(OwnerAvatar(repo));
        if avatar.Some? && ToStringThrows(avatar.value) then Failure(TypeError)
        else Success(RepoView(avatar, if Nullish(count) then Number(0) else count.value, home))
  }

  /** `a || b` on two property reads. */
  function Or(a: Option<Json>, b: Option<Json>): Option<Json> {
    if TruthyField(a) then a else b
  }

  /**
   * `ocard(org, c)`. Besides reading a property of `null` and the blog test,
   * it throws when a value it turns into a string throws on conversion: the
   * title `login || name`, the description unless nullish, `html_url` or,
   * when that is nullish, `login` in the fallback URL, and a truthy avatar.
   */
  function OrgCard(org: Json): (r: Result<View, RenderError>)
    ensures r.Failure? <==>
      || org.Null?
      || ConversionThrows(Or(Get(org, "login"), Get(org, "name")))
      || ConversionThrows(Get(org, "description"))
      || ConversionThrows(if Nullish(Get(org, "html_url")) then Get(org, "login") else Get(org, "html_url"))
      || ConversionThrows(Get(org, "avatar_url"))
      || HomeLink(Get(org, "blog")).Failure?
    ensures r.Success? ==> r.value.OrgView?
    ensures r.Success? ==> (r.value.homepage.Some? <==> HttpString(Get(org, "blog")))
    ensures r.Success? && r.value.homepage.Some? ==> Get(org, "blog") == Some(Str(r.value.homepage.value))
    ensures r.Success? ==> (r.value.avatar.Some? <==> TruthyField(Get(org, "avatar_url")))
  {
    if org.Null? then Failure(TypeError)
    else
      var url := if Nullish(Get(org, "html_url")) then Get(org, "login") else Get(org, "html_url");
      var avatar := Avatar(Get(org, "avatar_url"));
      if || ConversionThrows(Or(Get(org, "login"), Get(org, "name")))
         || ConversionThrows(Get(org, "description"))
         || ConversionThrows(url)
         || (avatar.Some? && ToStringThrows(avatar.value))
      then Failure(TypeError)
      else
        match HomeLink(Get(org, "blog"))
        case Failure(e) => Failure(e)
        case Success(home) => Success(OrgView(avatar, home))
  }
}
