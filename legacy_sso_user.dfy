/**
 * The older, global `SSOUser`: the same construction from the attribute map
 * as the namespaced revision, without the organisational-unit name and
 * without the derived student data.
 */
module LegacySSOUser {
  import opened Common
  import opened Php
  import opened Attributes

  /** The keys this revision takes out of the map; `ou_name` is not among them. */
  const KnownKeys: set<string> := {"login", "name", "group", "mail", "group_name", "auth_by", "ou_simple"}

  datatype User = User(
    login: string,
    name: string,
    groups: seq<string>,
    email: Option<string>,
    groupName: Option<string>,
    authBy: Option<string>,
    ouSimple: Option<string>,
    otherData: AttrMap)
  {
    /** `hasGroup($group)`. */
    function HasGroup(group: string): (r: bool)
      ensures r <==> exists i :: 0 <= i < |groups| && groups[i] == group
    {
      InArray(group, groups)
    }

    /** `asArray()`: only login, name, groups, e-mail and the other data. */
    function AsArray(): (r: map<string, Value>)
      ensures r.Keys == {"login", "name", "groups", "email", "otherData"}
      ensures r["login"] == StringValue(login) && r["name"] == StringValue(name)
      ensures r["groups"] == StringList(groups) && r["otherData"] == AttributeMap(otherData)
      ensures r["email"] == OptionalString(email) && (r["email"].NullValue? <==> email.None?)
    {
      map[
        "login" := StringValue(login),
        "name" := StringValue(name),
        "groups" := StringList(groups),
        "email" := OptionalString(email),
        "otherData" := AttributeMap(otherData)
      ]
    }
  }

  /** The outcome of `new SSOUser($data)`: the user, or PHP's TypeError for a missing `login` or `name`. */
  datatype Construction = Built(user: User) | TypeError(key: string)

  /** What the constructor builds from `data`. */
  function FromAttributes(data: AttrMap): Construction {
    var login, name := ArrayPop(Values(data, "login")), ArrayPop(Values(data, "name"));
    if login.None? then TypeError("login")
    else if name.None? then TypeError("name")
    else Built(Profile(login.value, name.value, data))
  }

  /** The user with the given login and name and the remaining fields read from `data`. */
  function Profile(login: string, name: string, data: AttrMap): User {
    var groupName := ArrayPop(Values(data, "group_name"));
    User(
      login, name, Values(data, "group"), ArrayPop(Values(data, "mail")),
      if groupName == Some("") then None else groupName,
      ArrayPop(Values(data, "auth_by")), ArrayPop(Values(data, "ou_simple")),
      data - KnownKeys)
  }

  /**
   * The constructor fails exactly when `login` or `name` has no value;
   * otherwise each scalar field is the last value of its key, `groups` the
   * whole `group` list, `group_name` "" is read as null, and `otherData` is
   * `data` without exactly the seven known keys, so `ou_name` stays in it.
   */
  lemma ConstructedFields(data: AttrMap)
    ensures FromAttributes(data) == TypeError("login") <==> Values(data, "login") == []
    ensures FromAttributes(data) == TypeError("name") <==> Values(data, "login") != [] && Values(data, "name") == []
    ensures FromAttributes(data).Built? <==> Values(data, "login") != [] && Values(data, "name") != []
    ensures FromAttributes(data).Built? ==>
      var u := FromAttributes(data).user;
      && u.login == data["login"][|data["login"]| - 1]
      && u.name == data["name"][|data["name"]| - 1]
      && u.groups == Values(data, "group")
      && u.email == ArrayPop(Values(data, "mail"))
      && u.groupName != Some("")
      && (ArrayPop(Values(data, "group_name")) != Some("") ==> u.groupName == ArrayPop(Values(data, "group_name")))
      && (ArrayPop(Values(data, "group_name")) == Some("") ==> u.groupName.None?)
      && u.authBy == ArrayPop(Values(data, "auth_by"))
      && u.ouSimple == ArrayPop(Values(data, "ou_simple"))
      && u.otherData.Keys == data.Keys - KnownKeys
      && (forall k :: k in u.otherData ==> u.otherData[k] == data[k])
      && ("ou_name" in data ==> "ou_name" in u.otherData)
  {
  }

  /**
   * From a map without `_` in any key the user has no group name, auth-by or
   * organisational unit, and its other data has no such key either.
   */
  lemma WithoutUnderscoreKeys(data: AttrMap)
    requires forall k :: k in data ==> '_' !in k
    ensures FromAttributes(data).Built? ==>
      var u := FromAttributes(data).user;
      u.groupName.None? && u.authBy.None? && u.ouSimple.None? && forall k :: k in u.otherData ==> '_' !in k
  {
    assert "group_name"[5] == '_' && "auth_by"[4] == '_' && "ou_simple"[2] == '_';
    assert "group_name" !in data && "auth_by" !in data && "ou_simple" !in data;
  }

  /**
   * `new SSOUser($data)`: the fields are set one after another, each by
   * `extractKey`, which takes its key out of the map; what is left is
   * `otherData`.
   */
  method Construct(data: AttrMap) returns (r: Construction)
    ensures r == FromAttributes(data)
  {
    var rest := data;
    var login, name;
    login, rest := ExtractKey(rest, "login", false);
    if login.value.None? {
      return TypeError("login");
    }
    name, rest := ExtractKey(rest, "name", false);
    if name.value.None? {
      return TypeError("name");
    }
    assert Values(data, "name") == Values(data - {"login"}, "name");
    var u := ExtractProfile(login.value.value, name.value.value, rest);
    assert Profile(login.value.value, name.value.value, rest) == Profile(login.value.value, name.value.value, data) by {
      ProfileAfterRemoval(login.value.value, name.value.value, data);
    }
    r := Built(u);
  }

  /** Removing `login` and `name` first does not change the rest of the profile. */
  lemma ProfileAfterRemoval(login: string, name: string, data: AttrMap)
    ensures Profile(login, name, data - {"login"} - {"name"}) == Profile(login, name, data)
  {
    var rest := data - {"login"} - {"name"};
    assert rest - KnownKeys == data - KnownKeys;
    forall key | key !in {"login", "name"}
      ensures Values(rest, key) == Values(data, key)
    {
    }
  }

  /** The remaining assignments of the constructor: each field by `extractKey`, then `otherData`. */
  method ExtractProfile(login: string, name: string, data: AttrMap) returns (u: User)
    requires "login" !in data && "name" !in data
    ensures u == Profile(login, name, data)
  {
    var rest := data;
    var groups, email, groupName, authBy, ouSimple;
    groups, rest := ExtractKey(rest, "group", true);
    email, rest := ExtractKey(rest, "mail", false);
    assert email.value == ArrayPop(Values(data, "mail")) by {
      ValuesAfterRemoval(data, {"group"}, "mail");
    }
    groupName, rest := ExtractKey(rest, "group_name", false);
    assert groupName.value == ArrayPop(Values(data, "group_name")) by {
      ValuesAfterRemoval(data - {"group"}, {"mail"}, "group_name");
      ValuesAfterRemoval(data, {"group"}, "group_name");
    }
    var groupNameOrNull := if groupName.value == Some("") then None else groupName.value;
    authBy, rest := ExtractKey(rest, "auth_by", false);
    assert authBy.value == ArrayPop(Values(data, "auth_by")) by {
      ValuesAfterRemoval(data - {"group"} - {"mail"}, {"group_name"}, "auth_by");
      ValuesAfterRemoval(data - {"group"}, {"mail"}, "auth_by");
      ValuesAfterRemoval(data, {"group"}, "auth_by");
    }
    ouSimple, rest := ExtractKey(rest, "ou_simple", false);
    assert ouSimple.value == ArrayPop(Values(data, "ou_simple")) by {
      ValuesAfterRemoval(data - {"group"} - {"mail"} - {"group_name"}, {"auth_by"}, "ou_simple");
      ValuesAfterRemoval(data - {"group"} - {"mail"}, {"group_name"}, "ou_simple");
      ValuesAfterRemoval(data - {"group"}, {"mail"}, "ou_simple");
      ValuesAfterRemoval(data, {"group"}, "ou_simple");
    }
    assert rest == data - KnownKeys;
    u := User(login, name, groups.values, email.value, groupNameOrNull, authBy.value, ouSimple.value, rest);
  }
}
