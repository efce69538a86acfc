/**
 * `SPSOstrov\SSO\SSOUser`: the logged-in user built from the gateway's
 * attribute map, with the classification of the organisational unit
 * (`ou_simple`) into teacher and student and the data derived for students.
 */
module SSOUser {
  import opened Common
  import opened Php
  import opened Attributes

  /** `OU_TEACHER`: the organisational unit of teachers. */
  const OuTeacher: string := "ucitele"

  /** The keys the constructor takes out of the map; all others end up in `otherData`. */
  const KnownKeys: set<string> := {"login", "name", "group", "mail", "group_name", "auth_by", "ou_simple", "ou_name"}

  predicate IsDigit(c: char) {
    '0' <= c <= '9'
  }

  // ---------------------------------------------------------------------------
  // the student pattern ^(.)([0-9]{2})(.)(.?)$
  // ---------------------------------------------------------------------------

  /**
   * The part of `ou` the pattern has to cover: PCRE's `$` also matches just
   * before a final `\n`, so one trailing newline is left outside.
   */
  function StudentCore(ou: string): (c: string)
    ensures '\n' !in ou ==> c == ou
  {
    if |ou| > 0 && ou[|ou| - 1] == '\n' then ou[..|ou| - 1] else ou
  }

  /** `preg_match(OU_STUDENT_REGEXP, ou)`: `.` is any byte but `\n`, `.?` makes the fifth one optional. */
  predicate StudentMatch(ou: string) {
    var c := StudentCore(ou);
    && (|c| == 4 || |c| == 5)
    && '\n' !in c
    && IsDigit(c[1]) && IsDigit(c[2])
  }

  /** The value of two decimal digits: PHP's `(int)` of the year group. */
  function TwoDigitValue(yy: string): (n: nat)
    requires |yy| == 2 && IsDigit(yy[0]) && IsDigit(yy[1])
    ensures n < 100
  {
    (yy[0] as int - '0' as int) * 10 + (yy[1] as int - '0' as int)
  }

  /**
   * The entry year for the number read from the year group, against the
   * current calendar year: a two-digit number is put into the current
   * century and moved one century back when that lies more than one year
   * ahead; a larger number is kept when it is past 2000.
   */
  function EntryYear(year: int, thisYear: nat): (r: Option<int>)
    ensures 0 <= year < 100 ==> r.Some? && (r.value - year) % 100 == 0 && thisYear - 99 <= r.value <= thisYear + 1
    ensures 0 <= year < 100 && thisYear % 100 != 99 ==> thisYear + 1 < r.value + 100
    ensures year >= 100 ==> (r.Some? <==> year > 2000) && (r.Some? ==> r.value == year)
  {
    if year < 100 then
      var yearBase := thisYear - thisYear % 100;
      var y := year + yearBase;
      Some(if y > thisYear + 1 then y - 100 else y)
    else if year > 2000 then Some(year)
    else None
  }

  /** The current year's own two digits stay in the current century. */
  lemma EntryYearOfCurrentYear(thisYear: nat)
    ensures EntryYear(thisYear % 100, thisYear) == Some(thisYear)
  {
  }

  lemma {:induction false} EntryYearExamples()
    ensures EntryYear(99, 2025) == Some(1999)
    ensures EntryYear(21, 2025) == Some(2021)
    ensures EntryYear(26, 2025) == Some(2026)
    ensures EntryYear(27, 2025) == Some(1927)
  {
  }

  /**
   * The one case where the result is not the latest year at most one ahead:
   * in a year ending in 99 the digits 00 stay in the current century (2000),
   * although the next year (2100) also ends in 00.
   */
  lemma EntryYearCenturyEnd(thisYear: nat)
    requires thisYear % 100 == 99
    ensures EntryYear(0, thisYear) == Some(thisYear - 99)
    ensures (thisYear + 1) % 100 == 0
  {
  }

  // ---------------------------------------------------------------------------
  // the user record
  // ---------------------------------------------------------------------------

  datatype User = User(
    login: string,
    name: string,
    groups: seq<string>,
    email: Option<string>,
    groupName: Option<string>,
    authBy: Option<string>,
    ouSimple: Option<string>,
    ouName: Option<string>,
    otherData: AttrMap)
  {
    /** `hasGroup($group)`. */
    function HasGroup(group: string): (r: bool)
      ensures r <==> exists i :: 0 <= i < |groups| && groups[i] == group
    {
      InArray(group, groups)
    }

    /** `isTeacher()`: exactly the unit "ucitele"; a teacher is never a student. */
    function IsTeacher(): (r: bool)
      ensures r <==> ouSimple == Some(OuTeacher)
      ensures r ==> !IsStudent()
    {
      ouSimple == Some(OuTeacher)
    }

    /**
     * `isStudent()`: the unit matches the student pattern (a missing unit is
     * read as "", which does not). For a unit without `\n`: four or five
     * bytes whose second and third are digits.
     */
    function IsStudent(): (r: bool)
      ensures ouSimple.None? ==> !r
      ensures ouSimple.Some? && '\n' !in ouSimple.value ==>
        (r <==> (|ouSimple.value| == 4 || |ouSimple.value| == 5) && IsDigit(ouSimple.value[1]) && IsDigit(ouSimple.value[2]))
    {
      StudentMatch(ouSimple.GetOr(""))
    }

    /** `getOUStudentField($field)` for groups 1 (field of study) and 2 (year). */
    function OUStudentField(field: nat): (r: Option<string>)
      requires field == 1 || field == 2
      ensures r.Some? <==> IsStudent()
      ensures r.Some? && field == 1 ==> |r.value| == 1 && r.value[0] == ouSimple.value[0]
      ensures r.Some? && field == 2 ==> |r.value| == 2 && IsDigit(r.value[0]) && IsDigit(r.value[1])
      ensures r.Some? && field == 2 ==> r.value == ouSimple.value[1..3]
    {
      if !IsStudent() then None
      else
        var c := StudentCore(ouSimple.value);
        Some(if field == 1 then c[..1] else c[1..3])
    }

    /** `getFieldOfStudy()`: the upper-cased first byte of a student's unit, None otherwise. */
    function FieldOfStudy(): (r: Option<string>)
      ensures r.Some? <==> IsStudent()
      ensures r.Some? ==> |r.value| == 1 && r.value[0] == UpperChar(ouSimple.value[0])
    {
      match OUStudentField(1)
      case None => None
      case Some(fos) => Some(StrToUpper(fos))
    }

    /**
     * `getStudyEntryYear()` with `date("Y")` passed in as `currentYear`: for a
     * student, the year whose last two digits are the unit's year digits and
     * that lies at most one year ahead of the current one.
     */
    function StudyEntryYear(currentYear: nat): (r: Option<int>)
      ensures r.Some? <==> IsStudent()
      ensures r.Some? ==> (r.value - TwoDigitValue(ouSimple.value[1..3])) % 100 == 0
      ensures r.Some? ==> currentYear - 99 <= r.value <= currentYear + 1
      ensures r.Some? && currentYear % 100 != 99 ==> currentYear + 1 < r.value + 100
    {
      match OUStudentField(2)
      case None => None
      case Some(year) => EntryYear(TwoDigitValue(year), currentYear)
    }

    /** `getClass()`: the unit's name for a student, None otherwise. */
    function Class(): (r: Option<string>)
      ensures IsStudent() ==> r == ouName
      ensures !IsStudent() ==> r.None?
    {
      if IsStudent() then ouName else None
    }

    /** `asArray()`: the record as a PHP associative array. */
    function AsArray(currentYear: nat): (r: map<string, Value>)
      ensures r.Keys == {"login", "name", "groupName", "groups", "email", "authBy", "ouSimple", "ouName",
                         "isTeacher", "isStudent", "fieldOfStudy", "studyEntryYear", "class", "otherData"}
      ensures r["isStudent"] == BoolValue(IsStudent()) && r["isTeacher"] == BoolValue(IsTeacher())
      ensures r["otherData"] == AttributeMap(otherData)
    {
      map[
        "login" := StringValue(login),
        "name" := StringValue(name),
        "groupName" := OptionalString(groupName),
        "groups" := StringList(groups),
        "email" := OptionalString(email),
        "authBy" := OptionalString(authBy),
        "ouSimple" := OptionalString(ouSimple),
        "ouName" := OptionalString(ouName),
        "isTeacher" := BoolValue(IsTeacher()),
        "isStudent" := BoolValue(IsStudent()),
        "fieldOfStudy" := OptionalString(FieldOfStudy()),
        "studyEntryYear" := match StudyEntryYear(currentYear) case None => NullValue case Some(y) => IntValue(y),
        "class" := OptionalString(Class()),
        "otherData" := AttributeMap(otherData)
      ]
    }
  }

  /** Login, name, groups and group name in `asArray`, the group name null where it is null. */
  lemma AsArrayIdentity(u: User, currentYear: nat)
    ensures var r := u.AsArray(currentYear);
      && r["login"] == StringValue(u.login) && r["name"] == StringValue(u.name) && r["groups"] == StringList(u.groups)
      && r["groupName"] == OptionalString(u.groupName)
  {
  }

  /** E-mail, auth-by and the unit in `asArray`, each null where the field is null. */
  lemma AsArrayOptionalFields(u: User, currentYear: nat)
    ensures var r := u.AsArray(currentYear);
      && r["email"] == OptionalString(u.email) && r["authBy"] == OptionalString(u.authBy)
      && r["ouSimple"] == OptionalString(u.ouSimple) && r["ouName"] == OptionalString(u.ouName)
  {
  }

  /** The derived data in `asArray`: field of study, class and entry year, null for a non-student. */
  lemma AsArrayDerived(u: User, currentYear: nat)
    ensures var r := u.AsArray(currentYear);
      && r["fieldOfStudy"] == OptionalString(u.FieldOfStudy()) && r["class"] == OptionalString(u.Class())
      && (u.StudyEntryYear(currentYear).None? ==> r["studyEntryYear"] == NullValue)
      && (u.StudyEntryYear(currentYear).Some? ==> r["studyEntryYear"] == IntValue(u.StudyEntryYear(currentYear).value))
  {
  }

  /** The data derived from the unit exists for students only, and then all of it does. */
  lemma {:induction false} StudentDataPresent(u: User, currentYear: nat)
    ensures u.IsStudent() ==> u.FieldOfStudy().Some? && u.StudyEntryYear(currentYear).Some? && u.Class() == u.ouName
    ensures !u.IsStudent() ==> u.FieldOfStudy().None? && u.StudyEntryYear(currentYear).None? && u.Class().None?
  {
  }

  // ---------------------------------------------------------------------------
  // construction
  // ---------------------------------------------------------------------------

  /**
   * The outcome of `new SSOUser($data)`: the user, or the TypeError PHP
   * raises when `login` or `name` (typed `string`) would be assigned null.
   */
  datatype Construction = Built(user: User) | TypeError(key: string)

  /** What the constructor builds from `data`. */
  function FromAttributes(data: AttrMap): Construction {
    var login, name := ArrayPop(Values(data, "login")), ArrayPop(Values(data, "name"));
    if login.None? then TypeError("login")
    else if name.None? then TypeError("name")
    else Built(Profile(login.value, name.value, data))
  }

  /** The user with the given login and name and the remaining fields read from `data`. */
  function Profile(login: string, name: string, data: AttrMap): User {
    var groupName := ArrayPop(Values(data, "group_name"));
    User(
      login, name, Values(data, "group"), ArrayPop(Values(data, "mail")),
      if groupName == Some("") then None else groupName,
      ArrayPop(Values(data, "auth_by")), ArrayPop(Values(data, "ou_simple")), ArrayPop(Values(data, "ou_name")),
      data - KnownKeys)
  }

  /**
   * The constructor fails exactly when `login` or `name` has no value;
   * otherwise each scalar field is the last value of its key, `groups` the
   * whole `group` list, `group_name` "" is read as null, and `otherData` is
   * `data` without exactly the known keys, every other entry unchanged.
   */
  lemma ConstructedFields(data: AttrMap)
    ensures FromAttributes(data) == TypeError("login") <==> Values(data, "login") == []
    ensures FromAttributes(data) == TypeError("name") <==> Values(data, "login") != [] && Values(data, "name") == []
    ensures FromAttributes(data).Built? <==> Values(data, "login") != [] && Values(data, "name") != []
    ensures FromAttributes(data).Built? ==>
      var u := FromAttributes(data).user;
      && u.login == data["login"][|data["login"]| - 1]
      && u.name == data["name"][|data["name"]| - 1]
      && u.groups == Values(data, "group")
      && u.email == ArrayPop(Values(data, "mail"))
      && u.groupName != Some("")
      && (ArrayPop(Values(data, "group_name")) != Some("") ==> u.groupName == ArrayPop(Values(data, "group_name")))
      && (ArrayPop(Values(data, "group_name")) == Some("") ==> u.groupName.None?)
      && u.authBy == ArrayPop(Values(data, "auth_by"))
      && u.ouSimple == ArrayPop(Values(data, "ou_simple"))
      && u.ouName == ArrayPop(Values(data, "ou_name"))
      && u.otherData.Keys == data.Keys - KnownKeys
      && (forall k :: k in u.otherData ==> u.otherData[k] == data[k])
  {
  }

  /**
   * `new SSOUser($data)`: the fields are set one after another, each by
   * `extractKey`, which takes its key out of the map; what is left is
   * `otherData`.
   */
  method Construct(data: AttrMap) returns (r: Construction)
    ensures r == FromAttributes(data)
  {
    var rest := data;
    var login, name;
    login, rest := ExtractKey(rest, "login", false);
    if login.value.None? {
      return TypeError("login");
    }
    name, rest := ExtractKey(rest, "name", false);
    if name.value.None? {
      return TypeError("name");
    }
    assert Values(data, "name") == Values(data - {"login"}, "name");
    var u := ExtractProfile(login.value.value, name.value.value, rest);
    assert Profile(login.value.value, name.value.value, rest) == Profile(login.value.value, name.value.value, data) by {
      ProfileAfterRemoval(login.value.value, name.value.value, data);
    }
    r := Built(u);
  }

  /** Removing `login` and `name` first does not change the rest of the profile. */
  lemma ProfileAfterRemoval(login: string, name: string, data: AttrMap)
    ensures Profile(login, name, data - {"login"} - {"name"}) == Profile(login, name, data)
  {
    var rest := data - {"login"} - {"name"};
    assert rest - KnownKeys == data - KnownKeys;
    forall key | key !in {"login", "name"}
      ensures Values(rest, key) == Values(data, key)
    {
    }
  }

  /** The remaining assignments of the constructor: each field by `extractKey`, then `otherData`. */
  method ExtractProfile(login: string, name: string, data: AttrMap) returns (u: User)
    requires "login" !in data && "name" !in data
    ensures u == Profile(login, name, data)
  {
    var rest := data;
    var groups, email, groupName, authBy, ouSimple, ouName;
    groups, rest := ExtractKey(rest, "group", true);
    email, rest := ExtractKey(rest, "mail", false);
    assert email.value == ArrayPop(Values(data, "mail")) by {
      ValuesAfterRemoval(data, {"group"}, "mail");
    }
    groupName, rest := ExtractKey(rest, "group_name", false);
    assert groupName.value == ArrayPop(Values(data, "group_name")) by {
      ValuesAfterRemoval(data - {"group"}, {"mail"}, "group_name");
      ValuesAfterRemoval(data, {"group"}, "group_name");
    }
    var groupNameOrNull := if groupName.value == Some("") then None else groupName.value;
    authBy, rest := ExtractKey(rest, "auth_by", false);
    assert authBy.value == ArrayPop(Values(data, "auth_by")) by {
      ValuesAfterRemoval(data - {"group"} - {"mail"}, {"group_name"}, "auth_by");
      ValuesAfterRemoval(data - {"group"}, {"mail"}, "auth_by");
      ValuesAfterRemoval(data, {"group"}, "auth_by");
    }
    ouSimple, rest := ExtractKey(rest, "ou_simple", false);
    assert ouSimple.value == ArrayPop(Values(data, "ou_simple")) by {
      ValuesAfterRemoval(data - {"group"} - {"mail"} - {"group_name"}, {"auth_by"}, "ou_simple");
      ValuesAfterRemoval(data - {"group"} - {"mail"}, {"group_name"}, "ou_simple");
      ValuesAfterRemoval(data - {"group"}, {"mail"}, "ou_simple");
      ValuesAfterRemoval(data, {"group"}, "ou_simple");
    }
    ouName, rest := ExtractKey(rest, "ou_name", false);
    assert ouName.value == ArrayPop(Values(data, "ou_name")) by {
      ValuesAfterRemoval(data - {"group"} - {"mail"} - {"group_name"} - {"auth_by"}, {"ou_simple"}, "ou_name");
      ValuesAfterRemoval(data - {"group"} - {"mail"} - {"group_name"}, {"auth_by"}, "ou_name");
      ValuesAfterRemoval(data - {"group"} - {"mail"}, {"group_name"}, "ou_name");
      ValuesAfterRemoval(data - {"group"}, {"mail"}, "ou_name");
      ValuesAfterRemoval(data, {"group"}, "ou_name");
    }
    assert rest == data - KnownKeys;
    u := User(login, name, groups.values, email.value, groupNameOrNull, authBy.value, ouSimple.value, ouName.value, rest);
  }
}
