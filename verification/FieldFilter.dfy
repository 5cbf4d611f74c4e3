/** Reading records through the field filter (rbac/filter.go, rbac/models.go:58-76,
    rbac/voter.go:120-168). */
module FieldFilter {
  import opened Digraphs
  import opened RoleHierarchy

  type Value = string

  /** A field of a struct type and its zero value. */
  datatype Field = Field(name: string, exported: bool, zero: Value)

  /** The read roles of the annotated fields. */
  type Permissions = map<string, seq<string>>

  datatype Annotations = Parsed(permissions: Permissions) | Malformed

  /** A struct type with its annotations. */
  datatype Type = Type(fields: seq<Field>, annotations: Annotations)

  type Record = seq<Value>

  datatype Resource = One(r: Record) | Many(rs: seq<Record>)

  datatype Result = Ok(resource: Resource) | ParseError

  datatype Config = Config(allowByDefault: bool, superuserRole: string, hierarchy: Graph)

  predicate Fits(t: Type, resource: Resource) {
    match resource
    case One(r) => |r| == |t.fields|
    case Many(rs) => forall i :: 0 <= i < |rs| ==> |rs[i]| == |t.fields|
  }

  // --------------------------------------------------- permissions

  /** The read list is searched in order; "any" settles it at once. */
  function Allowed(read: seq<string>, roles: set<string>): bool {
    if read == [] then false
    else if read[0] == "*" then true
    else if read[0] == "any" then roles != {}
    else if read[0] != "none" && read[0] in roles then true
    else Allowed(read[1..], roles)
  }

  /** One entry of a read list on its own. */
  predicate Grants(entry: string, roles: set<string>) {
    entry == "*" || (entry == "any" && roles != {}) || (entry != "any" && entry != "none" && entry in roles)
  }

  /** A caller with roles is allowed by any granting entry; one without only by
      a star that comes before every "any". */
  lemma {:induction false} AllowedMeans(read: seq<string>, roles: set<string>)
    ensures roles != {} ==> (Allowed(read, roles) <==> exists e :: e in read && Grants(e, roles))
    ensures roles == {} ==> (Allowed(read, roles) <==> exists i :: 0 <= i < |read| && read[i] == "*" && "any" !in read[..i])
  {
    if read != [] {
      AllowedMeans(read[1..], roles);
      if roles == {} {
        AllowedWithoutRoles(read);
      } else {
        assert Allowed(read, roles) <==> Grants(read[0], roles) || Allowed(read[1..], roles);
        if Allowed(read[1..], roles) {
          var e :| e in read[1..] && Grants(e, roles);
          assert e in read;
        }
        if e :| e in read && Grants(e, roles) { assert e == read[0] || e in read[1..]; }
      }
    }
  }

  lemma AllowedWithoutRoles(read: seq<string>)
    requires read != []
    requires Allowed(read[1..], {}) <==> exists i :: 0 <= i < |read[1..]| && read[1..][i] == "*" && "any" !in read[1..][..i]
    ensures Allowed(read, {}) <==> exists i :: 0 <= i < |read| && read[i] == "*" && "any" !in read[..i]
  {
    if i :| 0 <= i < |read| && read[i] == "*" && "any" !in read[..i] {
      if i > 0 {
        assert read[..i][0] == read[0];
        assert read[1..][i - 1] == "*" && read[..i] == [read[0]] + read[1..][..i - 1];
      }
    }
    if read[0] == "*" {
      assert "any" !in read[..0];
    } else if Allowed(read, {}) {
      var i :| 0 <= i < |read[1..]| && read[1..][i] == "*" && "any" !in read[1..][..i];
      assert read[i + 1] == "*" && read[..i + 1] == [read[0]] + read[1..][..i];
    }
  }

  /** The order of a read list matters to a caller without roles. */
  lemma StarBehindAny()
    ensures Allowed(["*", "any"], {}) && !Allowed(["any", "*"], {})
  {}

  lemma {:induction false} AllowedGrows(read: seq<string>, roles: set<string>, more: set<string>)
    requires roles <= more && Allowed(read, roles)
    ensures Allowed(read, more)
  {
    if read != [] && read[0] != "*" && read[0] != "any" && !(read[0] != "none" && read[0] in roles) {
      AllowedGrows(read[1..], roles, more);
    }
  }

  method HasReadPermission(read: seq<string>, userRoles: seq<string>) returns (allowed: bool)
    ensures allowed == Allowed(read, Elements(userRoles))
  {
    for i := 0 to |read|
      invariant Allowed(read, Elements(userRoles)) == Allowed(read[i..], Elements(userRoles))
    {
      var allowedRole := read[i];
      assert read[i..][0] == allowedRole && read[i..][1..] == read[i + 1..];
      if allowedRole == "*" {
        return true;
      } else if allowedRole == "any" {
        assert |userRoles| > 0 ==> userRoles[0] in Elements(userRoles);
        return |userRoles| > 0;
      } else if allowedRole == "none" {
        continue;
      } else {
        for j := 0 to |userRoles|
          invariant allowedRole !in userRoles[..j]
        {
          if userRoles[j] == allowedRole {
            assert userRoles[j] in Elements(userRoles);
            return true;
          }
        }
        assert userRoles[..|userRoles|] == userRoles;
      }
    }
    return false;
  }

  // --------------------------------------------------- fields

  predicate CanRead(name: string, permissions: Permissions, roles: set<string>, allowByDefault: bool) {
    if name in permissions then Allowed(permissions[name], roles) else allowByDefault
  }

  predicate AllReadable(t: Type, permissions: Permissions, roles: set<string>, allowByDefault: bool) {
    if permissions == map[] then allowByDefault
    else forall i :: 0 <= i < |t.fields| && t.fields[i].exported ==> CanRead(t.fields[i].name, permissions, roles, allowByDefault)
  }

  /** The field-by-field copy: what may not be read is zero, and so is what is
      not exported. */
  function CopyField(f: Field, v: Value, permissions: Permissions, roles: set<string>, allowByDefault: bool): Value {
    if f.exported && CanRead(f.name, permissions, roles, allowByDefault) then v else f.zero
  }

  function Copy(t: Type, r: Record, permissions: Permissions, roles: set<string>, allowByDefault: bool): Record
    requires |r| == |t.fields|
  {
    seq(|r|, i requires 0 <= i < |r| => CopyField(t.fields[i], r[i], permissions, roles, allowByDefault))
  }

  /** What filterReadFields returns for one record. */
  function FilterOne(t: Type, r: Record, permissions: Permissions, roles: set<string>, allowByDefault: bool): Record
    requires |r| == |t.fields|
  {
    if AllReadable(t, permissions, roles, allowByDefault) then r else Copy(t, r, permissions, roles, allowByDefault)
  }

  function FilterAll(t: Type, rs: seq<Record>, permissions: Permissions, roles: set<string>, allowByDefault: bool): seq<Record>
    requires Fits(t, Many(rs))
  {
    seq(|rs|, i requires 0 <= i < |rs| => FilterOne(t, rs[i], permissions, roles, allowByDefault))
  }

  method CanReadField(name: string, permissions: Permissions, userRoles: seq<string>, allowByDefault: bool) returns (ok: bool)
    ensures ok == CanRead(name, permissions, Elements(userRoles), allowByDefault)
  {
    if name !in permissions {
      return allowByDefault;
    }
    ok := HasReadPermission(permissions[name], userRoles);
  }

  method AllFieldsReadable(t: Type, permissions: Permissions, userRoles: seq<string>, allowByDefault: bool) returns (all: bool)
    ensures all == AllReadable(t, permissions, Elements(userRoles), allowByDefault)
  {
    if |permissions| == 0 {
      return allowByDefault;
    }
    for i := 0 to |t.fields|
      invariant forall k :: 0 <= k < i && t.fields[k].exported ==> CanRead(t.fields[k].name, permissions, Elements(userRoles), allowByDefault)
    {
      if !t.fields[i].exported {
        continue;
      }
      var ok := CanReadField(t.fields[i].name, permissions, userRoles, allowByDefault);
      if !ok {
        return false;
      }
    }
    return true;
  }

  method FilterReadFields(t: Type, r: Record, userRoles: seq<string>, config: Config) returns (ok: bool, filtered: Record)
    requires |r| == |t.fields|
    ensures ok == t.annotations.Parsed?
    ensures ok ==> filtered == FilterOne(t, r, t.annotations.permissions, Elements(userRoles), config.allowByDefault)
  {
    if t.annotations.Malformed? {
      return false, r;
    }
    var permissions := t.annotations.permissions;
    var all := AllFieldsReadable(t, permissions, userRoles, config.allowByDefault);
    if all {
      return true, r;
    }
    filtered := seq(|r|, i requires 0 <= i < |r| => t.fields[i].zero);
    for i := 0 to |t.fields|
      invariant |filtered| == |r|
      invariant forall k :: 0 <= k < |r| ==>
        filtered[k] == if k < i then CopyField(t.fields[k], r[k], permissions, Elements(userRoles), config.allowByDefault) else t.fields[k].zero
    {
      if !t.fields[i].exported {
        continue;
      }
      var readable := CanReadField(t.fields[i].name, permissions, userRoles, config.allowByDefault);
      filtered := filtered[i := if readable then r[i] else t.fields[i].zero];
    }
    ok := true;
  }

  /** filterSlice: the shortcut is tried once for the whole slice. */
  method FilterSlice(t: Type, rs: seq<Record>, userRoles: seq<string>, config: Config) returns (result: Result)
    requires Fits(t, Many(rs))
    ensures result == FilterResource(t, Many(rs), Elements(userRoles), config.allowByDefault)
  {
    if t.annotations.Parsed? {
      var all := AllFieldsReadable(t, t.annotations.permissions, userRoles, config.allowByDefault);
      if all {
        assert FilterAll(t, rs, t.annotations.permissions, Elements(userRoles), config.allowByDefault) == rs;
        return Ok(Many(rs));
      }
    }
    var filtered: seq<Record> := [];
    for i := 0 to |rs|
      invariant |filtered| == i && (i > 0 ==> t.annotations.Parsed?)
      invariant forall k :: 0 <= k < i ==> filtered[k] == FilterOne(t, rs[k], t.annotations.permissions, Elements(userRoles), config.allowByDefault)
    {
      var ok, item := FilterReadFields(t, rs[i], userRoles, config);
      if !ok {
        return ParseError;
      }
      filtered := filtered + [item];
    }
    if t.annotations.Parsed? {
      assert filtered == FilterAll(t, rs, t.annotations.permissions, Elements(userRoles), config.allowByDefault);
    }
    result := Ok(Many(filtered));
  }

  /** What the filter returns: a malformed type fails unless there is nothing to
      filter. */
  function FilterResource(t: Type, resource: Resource, roles: set<string>, allowByDefault: bool): Result
    requires Fits(t, resource)
  {
    match resource
    case One(r) =>
      if t.annotations.Malformed? then ParseError
      else Ok(One(FilterOne(t, r, t.annotations.permissions, roles, allowByDefault)))
    case Many(rs) =>
      if t.annotations.Malformed? then if rs == [] then Ok(resource) else ParseError
      else Ok(Many(FilterAll(t, rs, t.annotations.permissions, roles, allowByDefault)))
  }

  // --------------------------------------------------- the voter

  /** The roles of a caller, inherited ones included. */
  ghost function Expanded(hierarchy: Graph, roles: seq<string>): set<string> {
    set role | role in Names(hierarchy) + Elements(roles) && Inherited(hierarchy, roles, role)
  }

  lemma InheritedIsKnown(hierarchy: Graph, roles: seq<string>, role: string)
    requires Inherited(hierarchy, roles, role)
    ensures role in Expanded(hierarchy, roles)
  {
    var r :| r in roles && Reaches(hierarchy, r, role);
    var p :| IsPath(hierarchy, p) && p[0] == r && p[|p| - 1] == role;
    if |p| > 1 { assert StepAt(hierarchy, p, |p| - 2); }
  }

  /** What FilterRead returns to a caller with these roles. */
  ghost function FilteredFor(config: Config, roles: seq<string>, t: Type, resource: Resource): Result
    requires Fits(t, resource)
  {
    var expanded := Expanded(config.hierarchy, roles);
    if config.superuserRole in expanded then Ok(resource) else FilterResource(t, resource, expanded, config.allowByDefault)
  }

  method IsSuperuser(roles: seq<string>, config: Config) returns (yes: bool)
    ensures yes <==> config.superuserRole in roles
  {
    for i := 0 to |roles|
      invariant config.superuserRole !in roles[..i]
    {
      if roles[i] == config.superuserRole {
        return true;
      }
    }
    assert roles[..|roles|] == roles;
    return false;
  }

  method FilterRead(config: Config, roles: seq<string>, t: Type, resource: Resource) returns (result: Result)
    requires Fits(t, resource)
    ensures result == FilteredFor(config, roles, t, resource)
  {
    var expandedRoles := ResolveRoles(roles, config.hierarchy);
    ExpandedIs(config.hierarchy, roles, expandedRoles);
    var superuser := IsSuperuser(expandedRoles, config);
    if superuser {
      return Ok(resource);
    }
    match resource {
      case One(r) =>
        var ok, filtered := FilterReadFields(t, r, expandedRoles, config);
        result := if ok then Ok(One(filtered)) else ParseError;
      case Many(rs) =>
        result := FilterSlice(t, rs, expandedRoles, config);
    }
  }

  lemma ExpandedIs(hierarchy: Graph, roles: seq<string>, expanded: seq<string>)
    requires forall role :: role in expanded <==> Inherited(hierarchy, roles, role)
    ensures Elements(expanded) == Expanded(hierarchy, roles)
  {
    forall role | role in expanded ensures role in Expanded(hierarchy, roles) { InheritedIsKnown(hierarchy, roles, role); }
  }

  // --------------------------------------------------- what is shown

  /** A read list lets a caller with these roles read: by any granting entry; to
      a caller without roles only by a star before every "any". */
  ghost predicate ListGrants(read: seq<string>, roles: set<string>) {
    if roles != {} then exists e :: e in read && (e == "*" || e == "any" || (e != "none" && e in roles))
    else exists i :: 0 <= i < |read| && read[i] == "*" && "any" !in read[..i]
  }

  /** The field has a list that grants, or none and the policy is to allow. */
  ghost predicate MayRead(name: string, permissions: Permissions, roles: set<string>, allowByDefault: bool) {
    (name in permissions && ListGrants(permissions[name], roles)) || (name !in permissions && allowByDefault)
  }

  /** Nothing of the type needs to be hidden: no list at all and a policy to
      allow, or lists, and every exported field may be read. */
  ghost predicate NothingToHide(t: Type, permissions: Permissions, roles: set<string>, allowByDefault: bool) {
    (permissions == map[] ==> allowByDefault)
    && forall i :: 0 <= i < |t.fields| && t.fields[i].exported ==> MayRead(t.fields[i].name, permissions, roles, allowByDefault)
  }

  /** A record that is shown: an exported field has its value exactly if it may be
      read, and is zero otherwise; one that is not exported has its value exactly
      if nothing is hidden. */
  ghost predicate ShownAs(t: Type, r: Record, permissions: Permissions, roles: set<string>, allowByDefault: bool, shown: Record)
    requires |r| == |t.fields|
  {
    |shown| == |r| && forall i :: 0 <= i < |r| ==>
      shown[i] ==
        if (if t.fields[i].exported then MayRead(t.fields[i].name, permissions, roles, allowByDefault)
            else NothingToHide(t, permissions, roles, allowByDefault))
        then r[i] else t.fields[i].zero
  }

  lemma CanReadMeans(name: string, permissions: Permissions, roles: set<string>, allowByDefault: bool)
    ensures CanRead(name, permissions, roles, allowByDefault) <==> MayRead(name, permissions, roles, allowByDefault)
  {
    if name in permissions {
      var read := permissions[name];
      AllowedMeans(read, roles);
      if roles != {} {
        assert forall e :: Grants(e, roles) <==> e == "*" || e == "any" || (e != "none" && e in roles);
      }
    }
  }

  lemma FilterOneMeans(t: Type, r: Record, permissions: Permissions, roles: set<string>, allowByDefault: bool)
    requires |r| == |t.fields|
    ensures ShownAs(t, r, permissions, roles, allowByDefault, FilterOne(t, r, permissions, roles, allowByDefault))
  {
    forall name ensures CanRead(name, permissions, roles, allowByDefault) <==> MayRead(name, permissions, roles, allowByDefault) {
      CanReadMeans(name, permissions, roles, allowByDefault);
    }
    assert AllReadable(t, permissions, roles, allowByDefault) <==> NothingToHide(t, permissions, roles, allowByDefault);
  }

  /** Main result: what a caller gets. The superuser, by its own roles or
      inherited ones, gets the resource; anyone else gets, record by record, the
      fields its roles may read, and nothing of a type whose annotations cannot
      be parsed. */
  lemma FilterReadShows(config: Config, roles: seq<string>, t: Type, resource: Resource)
    requires Fits(t, resource)
    ensures
      var result := FilteredFor(config, roles, t, resource);
      if Inherited(config.hierarchy, roles, config.superuserRole) then result == Ok(resource)
      else if t.annotations.Malformed? then result == if resource == Many([]) then Ok(resource) else ParseError
      else
        result.Ok? &&
        match resource
        case One(r) => result.resource.One? && ShownToCaller(config, roles, t, r, result.resource.r)
        case Many(rs) => result.resource.Many? && |result.resource.rs| == |rs|
                         && forall k :: 0 <= k < |rs| ==> ShownToCaller(config, roles, t, rs[k], result.resource.rs[k])
  {
    var expanded := Expanded(config.hierarchy, roles);
    InheritedAreExpanded(config.hierarchy, roles);
    if !Inherited(config.hierarchy, roles, config.superuserRole) && t.annotations.Parsed? {
      match resource
      case One(r) => FilterOneMeans(t, r, t.annotations.permissions, expanded, config.allowByDefault);
      case Many(rs) =>
        forall k | 0 <= k < |rs|
          ensures ShownToCaller(config, roles, t, rs[k], FilterAll(t, rs, t.annotations.permissions, expanded, config.allowByDefault)[k])
        {
          FilterOneMeans(t, rs[k], t.annotations.permissions, expanded, config.allowByDefault);
        }
    }
  }

  lemma InheritedAreExpanded(hierarchy: Graph, roles: seq<string>)
    ensures forall role :: role in Expanded(hierarchy, roles) <==> Inherited(hierarchy, roles, role)
  {
    forall role ensures role in Expanded(hierarchy, roles) <==> Inherited(hierarchy, roles, role) {
      if Inherited(hierarchy, roles, role) { InheritedIsKnown(hierarchy, roles, role); }
    }
  }

  /** What is shown to a caller with these roles and all they inherit. */
  ghost predicate ShownToCaller(config: Config, roles: seq<string>, t: Type, r: Record, shown: Record)
    requires |r| == |t.fields| && t.annotations.Parsed?
  {
    exists all: set<string> :: (forall role :: role in all <==> Inherited(config.hierarchy, roles, role))
                            && ShownAs(t, r, t.annotations.permissions, all, config.allowByDefault, shown)
  }

  // --------------------------------------------------- main results

  /** The shortcut returns what the copy would exactly when the fields that are
      not exported hold zero values; in particular for exported fields only. */
  lemma ShortcutIsCopy(t: Type, r: Record, permissions: Permissions, roles: set<string>, allowByDefault: bool)
    requires |r| == |t.fields| && AllReadable(t, permissions, roles, allowByDefault)
    ensures Copy(t, r, permissions, roles, allowByDefault) == r <==>
      forall i :: 0 <= i < |r| && !t.fields[i].exported ==> r[i] == t.fields[i].zero
  {
    var c := Copy(t, r, permissions, roles, allowByDefault);
    forall i | 0 <= i < |r| ensures c[i] == r[i] <==> t.fields[i].exported || r[i] == t.fields[i].zero {
      assert t.fields[i].exported ==> CanRead(t.fields[i].name, permissions, roles, allowByDefault);
    }
    if c == r {
      forall i | 0 <= i < |r| && !t.fields[i].exported ensures r[i] == t.fields[i].zero { assert c[i] == r[i]; }
    }
  }

  predicate ExportedOnly(t: Type) {
    forall i :: 0 <= i < |t.fields| ==> t.fields[i].exported
  }

  /** For records of exported fields a slice is filtered copy by copy. */
  lemma SliceIsElementWise(t: Type, rs: seq<Record>, roles: set<string>, allowByDefault: bool, i: nat)
    requires Fits(t, Many(rs)) && t.annotations.Parsed? && ExportedOnly(t) && i < |rs|
    ensures
      var result := FilterResource(t, Many(rs), roles, allowByDefault);
      && result.Ok? && result.resource.Many? && |result.resource.rs| == |rs|
      && result.resource.rs[i] == Copy(t, rs[i], t.annotations.permissions, roles, allowByDefault)
  {
    if AllReadable(t, t.annotations.permissions, roles, allowByDefault) {
      ShortcutIsCopy(t, rs[i], t.annotations.permissions, roles, allowByDefault);
    }
  }

  lemma FilterOneTwice(t: Type, r: Record, permissions: Permissions, roles: set<string>, allowByDefault: bool)
    requires |r| == |t.fields|
    ensures FilterOne(t, FilterOne(t, r, permissions, roles, allowByDefault), permissions, roles, allowByDefault)
            == FilterOne(t, r, permissions, roles, allowByDefault)
  {}

  /** Filtering what was filtered changes nothing. */
  lemma FilterReadIsIdempotent(config: Config, roles: seq<string>, t: Type, resource: Resource)
    requires Fits(t, resource) && FilteredFor(config, roles, t, resource).Ok?
    ensures
      var once := FilteredFor(config, roles, t, resource);
      Fits(t, once.resource) && FilteredFor(config, roles, t, once.resource) == once
  {
    var expanded := Expanded(config.hierarchy, roles);
    if config.superuserRole !in expanded && t.annotations.Parsed? && resource.Many? {
      AllTwice(t, resource.rs, t.annotations.permissions, expanded, config.allowByDefault);
    }
  }

  lemma AllTwice(t: Type, rs: seq<Record>, permissions: Permissions, roles: set<string>, allowByDefault: bool)
    requires Fits(t, Many(rs))
    ensures
      var once := FilterAll(t, rs, permissions, roles, allowByDefault);
      Fits(t, Many(once)) && FilterAll(t, once, permissions, roles, allowByDefault) == once
  {
    var once := FilterAll(t, rs, permissions, roles, allowByDefault);
    forall i | 0 <= i < |rs| ensures FilterAll(t, once, permissions, roles, allowByDefault)[i] == once[i] {
      FilterOneTwice(t, rs[i], permissions, roles, allowByDefault);
    }
  }

  /** Every field that one result shows, the other shows too. */
  predicate ShowsAtLeast(r: Record, less: Record, more: Record) {
    |less| == |more| == |r| && forall i :: 0 <= i < |r| && less[i] == r[i] ==> more[i] == r[i]
  }

  predicate ResourceShowsAtLeast(resource: Resource, less: Resource, more: Resource) {
    match resource
    case One(r) => less.One? && more.One? && ShowsAtLeast(r, less.r, more.r)
    case Many(rs) => less.Many? && more.Many? && |less.rs| == |more.rs| == |rs|
                     && forall i :: 0 <= i < |rs| ==> ShowsAtLeast(rs[i], less.rs[i], more.rs[i])
  }

  lemma CanReadGrows(name: string, permissions: Permissions, roles: set<string>, more: set<string>, allowByDefault: bool)
    requires roles <= more && CanRead(name, permissions, roles, allowByDefault)
    ensures CanRead(name, permissions, more, allowByDefault)
  {
    if name in permissions { AllowedGrows(permissions[name], roles, more); }
  }

  lemma FilterOneGrows(t: Type, r: Record, permissions: Permissions, roles: set<string>, more: set<string>, allowByDefault: bool)
    requires |r| == |t.fields| && roles <= more
    ensures ShowsAtLeast(r, FilterOne(t, r, permissions, roles, allowByDefault), FilterOne(t, r, permissions, more, allowByDefault))
  {
    forall name | CanRead(name, permissions, roles, allowByDefault) ensures CanRead(name, permissions, more, allowByDefault) {
      CanReadGrows(name, permissions, roles, more, allowByDefault);
    }
  }

  lemma {:induction false} PathsGrow(g: Graph, h: Graph, p: seq<string>)
    requires IsPath(g, p) && forall a, b :: Edge(g, a, b) ==> Edge(h, a, b)
    ensures IsPath(h, p)
  {
    forall i | 0 <= i < |p| - 1 ensures StepAt(h, p, i) { assert StepAt(g, p, i); }
  }

  lemma ExpandedGrows(g: Graph, h: Graph, roles: seq<string>, more: seq<string>)
    requires (forall a, b :: Edge(g, a, b) ==> Edge(h, a, b)) && forall r :: r in roles ==> r in more
    ensures Expanded(g, roles) <= Expanded(h, more)
  {
    forall role | role in Expanded(g, roles) ensures role in Expanded(h, more) {
      var r :| r in roles && Reaches(g, r, role);
      var p :| IsPath(g, p) && p[0] == r && p[|p| - 1] == role;
      PathsGrow(g, h, p);
      InheritedIsKnown(h, more, role);
    }
  }

  /** Adding roles or hierarchy edges never hides a field. */
  lemma FilterReadIsMonotone(config: Config, more: Config, roles: seq<string>, moreRoles: seq<string>, t: Type, resource: Resource)
    requires Fits(t, resource) && FilteredFor(config, roles, t, resource).Ok?
    requires more == config.(hierarchy := more.hierarchy) && (forall a, b :: Edge(config.hierarchy, a, b) ==> Edge(more.hierarchy, a, b))
    requires forall r :: r in roles ==> r in moreRoles
    ensures
      var less, greater := FilteredFor(config, roles, t, resource), FilteredFor(more, moreRoles, t, resource);
      greater.Ok? && ResourceShowsAtLeast(resource, less.resource, greater.resource)
  {
    ExpandedGrows(config.hierarchy, more.hierarchy, roles, moreRoles);
    var a, b := Expanded(config.hierarchy, roles), Expanded(more.hierarchy, moreRoles);
    if config.superuserRole !in b && t.annotations.Parsed? {
      match resource
      case One(r) => FilterOneGrows(t, r, t.annotations.permissions, a, b, config.allowByDefault);
      case Many(rs) =>
        forall i | 0 <= i < |rs|
          ensures ShowsAtLeast(rs[i], FilterAll(t, rs, t.annotations.permissions, a, config.allowByDefault)[i],
                               FilterAll(t, rs, t.annotations.permissions, b, config.allowByDefault)[i])
        {
          FilterOneGrows(t, rs[i], t.annotations.permissions, a, b, config.allowByDefault);
        }
    }
  }
}
