/** The JSON body that every delivery request carries. */
module Payload {
  import opened Wrappers

  /** Python truthiness of an optional string: present and not empty. */
  predicate Given(s: Option<string>) {
    s.Some? && s.value != ""
  }

  /**
   * The request body: `content` is always the message; `username` and
   * `avatar_url` are present exactly when the corresponding argument is given.
   */
  function Build(message: string, username: Option<string>, avatarUrl: Option<string>): (p: map<string, string>)
    ensures "content" in p && p["content"] == message
    ensures "username" in p <==> Given(username)
    ensures "username" in p ==> p["username"] == username.value
    ensures "avatar_url" in p <==> Given(avatarUrl)
    ensures "avatar_url" in p ==> p["avatar_url"] == avatarUrl.value
    ensures p.Keys <= {"content", "username", "avatar_url"}
  {
    var withContent := map["content" := message];
    var withName := if Given(username) then withContent["username" := username.value] else withContent;
    if Given(avatarUrl) then withName["avatar_url" := avatarUrl.value] else withName
  }
}
