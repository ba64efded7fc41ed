/** What the report reads off the test assembly through reflection, as plain
    values: types, their public methods, the methods' custom attributes with
    their constructor arguments, and the static non-public data-source
    methods that data-driven tests name. */
module TestMetadata {
  import opened Results
  import opened Sequences

  /** A custom attribute: the simple name of its type (`AttributeType.Name`)
      and the string form of its constructor arguments, in order. */
  datatype Attribute = Attribute(typeName: string, args: seq<string>)

  /** A method as `GetMethods()` lists it for its type. */
  datatype MethodDecl = MethodDecl(name: string, attributes: seq<Attribute>)

  /** An object a data source yields: an NUnit `ITestCaseData` (its test name
      and its property bag, key to the string form of the first value), or
      any other object. */
  datatype DataItem =
    | CaseData(testName: string, properties: map<string, string>)
    | OtherItem

  /** A type handed to the report: its simple name, its public methods in
      `GetMethods()` order, and what each of its static non-public methods
      yields when invoked with no arguments, by method name. */
  datatype TestType = TestType(name: string, methods: seq<MethodDecl>, dataSources: map<string, seq<DataItem>>)

  /** A `MethodInfo` as the report sees it: the name of the type it was
      obtained from (`ReflectedType.Name`), its name and its attributes. */
  datatype Method = Method(reflectedTypeName: string, name: string, attributes: seq<Attribute>)

  /** The exceptions the report can raise. */
  datatype Error =
    | NoConstructorArgument(attributeType: string)  // `ConstructorArguments.First()` on no arguments
    | TooFewPropertyArguments(attributeType: string)  // `ConstructorArguments[1]` out of range
    | NoDataSourceName(methodName: string)             // `ConstructorArguments[0]` out of range
    | NoTypeNamed(className: string)               // `types.First(...)` found nothing
    | DataSourceNotFound(className: string, sourceName: string)  // `GetMethod` gave null
    | NotTestCaseData(methodName: string)              // `item as ITestCaseData` gave null
    | MissingProperty(key: string)                 // `Properties.Get(key)` gave null

  function MethodsOf(t: TestType): seq<Method> {
    seq(|t.methods|, i requires 0 <= i < |t.methods| => Method(t.name, t.methods[i].name, t.methods[i].attributes))
  }

  /** `types.SelectMany(t => t.GetMethods())`. */
  function AllMethods(types: seq<TestType>): seq<Method>
    decreases |types|
  {
    if |types| == 0 then [] else MethodsOf(types[0]) + AllMethods(types[1..])
  }

  /** Every method comes from one of the given types and carries that type's
      name, and every method `GetMethods()` lists for every type is listed. */
  lemma {:induction false} AllMethodsMembers(types: seq<TestType>, m: Method)
    ensures m in AllMethods(types) <==>
      exists t, d :: t in types && d in t.methods && m == Method(t.name, d.name, d.attributes)
    decreases |types|
  {
    if |types| > 0 {
      AllMethodsMembers(types[1..], m);
      var t0 := types[0];
      if m in MethodsOf(t0) {
        var i :| 0 <= i < |t0.methods| && MethodsOf(t0)[i] == m;
        assert t0.methods[i] in t0.methods;
      }
      if exists d :: d in t0.methods && m == Method(t0.name, d.name, d.attributes) {
        var d :| d in t0.methods && m == Method(t0.name, d.name, d.attributes);
        var i :| 0 <= i < |t0.methods| && t0.methods[i] == d;
        assert MethodsOf(t0)[i] == m;
      }
      forall t | t in types && t != t0 ensures t in types[1..] {
        var i :| 0 <= i < |types| && types[i] == t;
        assert i > 0 && types[1..][i - 1] == t;
      }
    }
  }

  predicate HasAttributeNamed(m: Method, typeName: string) {
    exists a :: a in m.attributes && a.typeName == typeName
  }

  /** `methods.Where(m => m.CustomAttributes.Any(a => a.AttributeType.Name == typeName))`:
      the plain tests for `"TestAttribute"`, the data-driven tests for
      `"TestCaseSourceAttribute"`, in enumeration order. */
  function TestsMarkedWith(methods: seq<Method>, typeName: string): (r: seq<Method>)
    ensures forall m :: m in r <==> m in methods && HasAttributeNamed(m, typeName)
  {
    Where(methods, m => HasAttributeNamed(m, typeName))
  }

  /** The lookup behind `types.First(t => t.Name == className)`. */
  function TypeNamed(types: seq<TestType>, className: string): Option<nat> {
    FirstWhere(types, (t: TestType) => t.name == className)
  }

  /** The items a data-driven test's source yields: the source's name is the
      first argument of the method's first `TestCaseSourceAttribute`; it is
      looked up among the static non-public methods of the first type whose
      name is the method's class name, and invoked. */
  function ResolveSource(types: seq<TestType>, m: Method): (r: Result<seq<DataItem>, Error>)
    requires HasAttributeNamed(m, "TestCaseSourceAttribute")
  {
    var k := FirstWhere(m.attributes, (a: Attribute) => a.typeName == "TestCaseSourceAttribute").value;
    var args := m.attributes[k].args;
    if |args| == 0 then Err(NoDataSourceName(m.name))
    else match TypeNamed(types, m.reflectedTypeName)
      case None => Err(NoTypeNamed(m.reflectedTypeName))
      case Some(t) =>
        if args[0] in types[t].dataSources then Ok(types[t].dataSources[args[0]])
        else Err(DataSourceNotFound(m.reflectedTypeName, args[0]))
  }

  /** Resolution succeeds exactly when the attribute names a source, and the
      first type carrying the class name has a static non-public method of
      that name; it then yields what that method yields. The class lookup
      itself never fails for a method obtained from `types`. */
  lemma ResolveSourceMeaning(types: seq<TestType>, m: Method)
    requires m in AllMethods(types)
    requires HasAttributeNamed(m, "TestCaseSourceAttribute")
    ensures TypeNamed(types, m.reflectedTypeName).Some?
    ensures ResolveSource(types, m).Ok? <==>
      var a := m.attributes[FirstWhere(m.attributes, (a: Attribute) => a.typeName == "TestCaseSourceAttribute").value];
      |a.args| > 0 && a.args[0] in types[TypeNamed(types, m.reflectedTypeName).value].dataSources
    ensures ResolveSource(types, m).Ok? ==>
      var a := m.attributes[FirstWhere(m.attributes, (a: Attribute) => a.typeName == "TestCaseSourceAttribute").value];
      ResolveSource(types, m).value == types[TypeNamed(types, m.reflectedTypeName).value].dataSources[a.args[0]]
  {
    AllMethodsMembers(types, m);
    var t, d :| t in types && d in t.methods && m == Method(t.name, d.name, d.attributes);
    var i :| 0 <= i < |types| && types[i] == t;
  }
}
