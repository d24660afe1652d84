/** The caller factory: the name of the default caller class, and the
    callers themselves, each created once on first request and handed out
    again afterwards. The PHP class keeps these in static fields; here they
    are the fields of one factory object. */
module Factory {
  import opened Wrappers
  import opened Php
  import Callers

  const DefaultClass: string := "CurlCaller"

  /** The factory getters that exist, by name: getDefaultCaller calls the
      static method "get" followed by the default class name. PHP looks a
      method up ignoring letter case, so "getcurlcaller" is getCurlCaller. */
  function GetterFor(getter: string): (k: Option<Callers.Kind>)
    ensures k == Some(Callers.Kind.Curl) <==> Lower(getter) == "getcurlcaller"
    ensures k == Some(Callers.Kind.Socket) <==> Lower(getter) == "getsocketcaller"
  {
    var name := Lower(getter);
    if name == "getcurlcaller" then Some(Callers.Kind.Curl)
    else if name == "getsocketcaller" then Some(Callers.Kind.Socket)
    else None
  }

  /** The caller kind the default class name selects. */
  function DefaultKind(className: string): Option<Callers.Kind> {
    GetterFor("get" + className)
  }

  /** Prefixing "get" keeps names apart. */
  lemma GetPrefixCancels(a: string, b: string)
    requires "get" + a == "get" + b
    ensures a == b
  {
    assert a == ("get" + a)[3..];
    assert b == ("get" + b)[3..];
  }

  /** "get" is already in lower case. */
  lemma LowerOfGet(className: string)
    ensures Lower("get" + className) == "get" + Lower(className)
  {
    var a, b := Lower("get" + className), "get" + Lower(className);
    assert |a| == |b|;
    forall i | 0 <= i < |a|
      ensures a[i] == b[i]
    {
      if i >= 3 {
        assert ("get" + className)[i] == className[i - 3];
      }
    }
  }

  /** The default class name selects the cURL caller exactly when it is
      "CurlCaller" and the socket caller exactly when it is "SocketCaller",
      in any letter case; every other name (PeclCaller among them) selects
      no modelled caller. */
  lemma DefaultKindIff(className: string)
    ensures DefaultKind(className) == Some(Callers.Kind.Curl) <==> Lower(className) == "curlcaller"
    ensures DefaultKind(className) == Some(Callers.Kind.Socket) <==> Lower(className) == "socketcaller"
    ensures DefaultKind(className).None? <==>
      Lower(className) != "curlcaller" && Lower(className) != "socketcaller"
  {
    LowerOfGet(className);
    if "get" + Lower(className) == "getcurlcaller" {
      GetPrefixCancels(Lower(className), "curlcaller");
    }
    if "get" + Lower(className) == "getsocketcaller" {
      GetPrefixCancels(Lower(className), "socketcaller");
    }
  }

  /** A default set in another letter case still selects its caller. */
  lemma CaseVariantSelectsCurl()
    ensures DefaultKind("curlcaller") == Some(Callers.Kind.Curl)
    ensures DefaultKind("CURLCALLER") == Some(Callers.Kind.Curl)
  {
    DefaultKindIff("curlcaller");
    DefaultKindIff("CURLCALLER");
    assert Lower("curlcaller") == "curlcaller";
    assert Lower("CURLCALLER") == "curlcaller";
  }

  /** setDefaultCaller's exception message. */
  function NotACallerMessage(className: string): string {
    "Class '" + className + "' does not extend 'Caller'!"
  }

  /** Only a class whose parent class is Caller may become the default;
      get_parent_class gives false (None) for a class without a parent. */
  predicate ExtendsCaller(className: string, parentClass: string -> Option<string>) {
    parentClass(className) == Some("Caller")
  }

  class CallerFactory {
    var defaultClass: string
    var curlInstance: Callers.Caller?
    var socketInstance: Callers.Caller?

    /** Each singleton is of its own kind. */
    predicate Valid()
      reads this
    {
      (curlInstance != null ==> curlInstance.kind == Callers.Kind.Curl) &&
      (socketInstance != null ==> socketInstance.kind == Callers.Kind.Socket)
    }

    /** The default is the cURL caller, and no caller exists yet. */
    constructor ()
      ensures Valid()
      ensures defaultClass == DefaultClass && curlInstance == null && socketInstance == null
    {
      defaultClass := DefaultClass;
      curlInstance := null;
      socketInstance := null;
    }

    /** getCurlCaller: the one cURL caller, created on the first request. */
    method GetCurlCaller() returns (c: Callers.Caller)
      requires Valid()
      modifies this`curlInstance
      ensures Valid() && c == curlInstance && c.kind == Callers.Kind.Curl
      ensures old(curlInstance) != null ==> c == old(curlInstance)
      ensures old(curlInstance) == null ==> fresh(c) && c.cache == null && c.headers == map[]
    {
      if curlInstance == null {
        curlInstance := new Callers.Caller.Curl();
      }
      c := curlInstance;
    }

    /** getSocketCaller: the one socket caller, created with an empty cache
        on the first request. */
    method GetSocketCaller() returns (c: Callers.Caller)
      requires Valid()
      modifies this`socketInstance
      ensures Valid() && c == socketInstance && c.kind == Callers.Kind.Socket
      ensures old(socketInstance) != null ==> c == old(socketInstance)
      ensures old(socketInstance) == null ==> fresh(c) && c.cache != null && fresh(c.cache) && c.cache.entries == map[]
    {
      if socketInstance == null {
        socketInstance := new Callers.Caller.Socket();
      }
      c := socketInstance;
    }

    /** getDefaultCaller: the getter named after the default class; None
        when that getter is not one of the two modelled here. */
    method GetDefaultCaller() returns (c: Option<Callers.Caller>)
      requires Valid()
      modifies this`curlInstance, this`socketInstance
      ensures Valid()
      ensures DefaultKind(defaultClass) == Some(Callers.Kind.Curl) ==>
        c == Some(curlInstance) && curlInstance != null && socketInstance == old(socketInstance) &&
        (old(curlInstance) != null ==> curlInstance == old(curlInstance))
      ensures DefaultKind(defaultClass) == Some(Callers.Kind.Socket) ==>
        c == Some(socketInstance) && socketInstance != null && curlInstance == old(curlInstance) &&
        (old(socketInstance) != null ==> socketInstance == old(socketInstance))
      ensures DefaultKind(defaultClass).None? ==>
        c == None && curlInstance == old(curlInstance) && socketInstance == old(socketInstance)
      ensures c.Some? ==> c.value.kind == DefaultKind(defaultClass).value
    {
      var getter := Lower("get" + defaultClass);
      if getter == "getcurlcaller" {
        var k := GetCurlCaller();
        c := Some(k);
      } else if getter == "getsocketcaller" {
        var k := GetSocketCaller();
        c := Some(k);
      } else {
        c := None;
      }
    }

    /** setDefaultCaller: a class extending Caller becomes the default;
        any other class is refused with an exception and the default is
        kept. */
    method SetDefaultCaller(className: string, parentClass: string -> Option<string>)
      returns (r: Result<(), string>)
      modifies this`defaultClass
      ensures ExtendsCaller(className, parentClass) ==> r.Success? && defaultClass == className
      ensures !ExtendsCaller(className, parentClass) ==>
        r == Failure(NotACallerMessage(className)) && defaultClass == old(defaultClass)
    {
      if parentClass(className) == Some("Caller") {
        defaultClass := className;
        r := Success(());
      } else {
        r := Failure(NotACallerMessage(className));
      }
    }
  }
}
