/** The host load-balancer factory: turns a kernel name, in any letter case
    and possibly an alias, into the replicated balancer it names. */
module HostFactory {
  import opened Wrappers

  /** The two replicated host kernels the factory can build. */
  datatype Kernel = ReplicatedPetite | ReplicatedFillIn

  /** What a factory call builds: the kernel, whether it screens a second
      (protonic) basis as well, and the pad value it passes on. */
  datatype Balancer = Balancer(kernel: Kernel, twoBasis: bool, padValue: nat)

  const DefaultName: string := "DEFAULT"
  const ReplicatedName: string := "REPLICATED"
  const PetiteName: string := "REPLICATED-PETITE"
  const FillInName: string := "REPLICATED-FILLIN"
  const NotRecognized: string := "Load Balancer Kernel Not Recognized: "

  predicate IsLower(c: char) {
    'a' <= c <= 'z'
  }

  /** toupper in the C locale: only the letters a-z change. */
  function UpperChar(c: char): (u: char)
    ensures !IsLower(u)
    ensures IsLower(c) ==> u as int + 32 == c as int
    ensures !IsLower(c) ==> u == c
  {
    if IsLower(c) then (c as int - 32) as char else c
  }

  /** The name with every letter a-z upper-cased. */
  function ToUpper(s: string): (u: string)
    ensures |u| == |s|
    ensures forall i | 0 <= i < |s| :: u[i] == UpperChar(s[i])
  {
    seq(|s|, i requires 0 <= i < |s| => UpperChar(s[i]))
  }

  /** The name the factory compares against: upper-cased, with the aliases
      DEFAULT and REPLICATED replaced by REPLICATED-PETITE. */
  function CanonicalName(name: string): string {
    var upper := ToUpper(name);
    if upper == DefaultName || upper == ReplicatedName then PetiteName else upper
  }

  /** The kernel `name` selects, or the factory's error message. */
  function ResolveKernel(name: string): (r: Result<Kernel, string>)
    ensures r == Success(ReplicatedPetite) <==> ToUpper(name) in {DefaultName, ReplicatedName, PetiteName}
    ensures r == Success(ReplicatedFillIn) <==> ToUpper(name) == FillInName
    ensures r.Failure? <==> ToUpper(name) !in {DefaultName, ReplicatedName, PetiteName, FillInName}
    ensures r.Failure? ==> r.error == NotRecognized + ToUpper(name)
  {
    var kernelName := CanonicalName(name);
    var ptr: Option<Kernel> := if kernelName == PetiteName then Some(ReplicatedPetite) else None;
    var ptr := if kernelName == FillInName then Some(ReplicatedFillIn) else ptr;
    if ptr.None? then Failure(NotRecognized + kernelName) else Success(ptr.value)
  }

  /** What either overload of the factory returns. */
  function Instance(name: string, pv: nat, twoBasis: bool): Result<Balancer, string> {
    match ResolveKernel(name)
    case Success(k) => Success(Balancer(k, twoBasis, pv))
    case Failure(e) => Failure(e)
  }

  /** Upper-cases the name in place, as std::transform with toupper does. */
  method UpperInPlace(name: string) returns (s: string)
    ensures s == ToUpper(name)
  {
    s := name;
    var i := 0;
    while i < |s|
      invariant 0 <= i <= |s| == |name|
      invariant s[..i] == ToUpper(name[..i]) && s[i..] == name[i..]
    {
      var c := UpperChar(s[i]);
      assert s[i] == name[i..][0];
      s := s[i := c];
      i := i + 1;
      assert s[..i] == s[..i - 1] + [c];
      assert ToUpper(name[..i]) == ToUpper(name[..i - 1]) + [c];
    }
    assert s == s[..i] && name[..i] == name;
  }

  /** Selects and builds the kernel named `kernelName`, for one basis
      (`twoBasis` false) or with a second basis (`twoBasis` true). */
  method Select(kernelName: string, pv: nat, twoBasis: bool) returns (r: Result<Balancer, string>)
    ensures r == Instance(kernelName, pv, twoBasis)
  {
    var name := UpperInPlace(kernelName);
    if name == DefaultName || name == ReplicatedName {
      name := PetiteName;
    }
    var ptr: Option<Kernel> := None;
    if name == PetiteName {
      ptr := Some(ReplicatedPetite);
    }
    if name == FillInName {
      ptr := Some(ReplicatedFillIn);
    }
    if ptr.None? {
      return Failure(NotRecognized + name);
    }
    return Success(Balancer(ptr.value, twoBasis, pv));
  }

  /** The single-basis factory. */
  method GetSharedInstance(kernelName: string, pv: nat) returns (r: Result<Balancer, string>)
    ensures r.Success? <==> ToUpper(kernelName) in {DefaultName, ReplicatedName, PetiteName, FillInName}
    ensures r.Success? ==> r.value.padValue == pv && !r.value.twoBasis
    ensures r.Success? ==> (r.value.kernel == ReplicatedFillIn <==> ToUpper(kernelName) == FillInName)
    ensures r.Failure? ==> r.error == NotRecognized + ToUpper(kernelName)
  {
    r := Select(kernelName, pv, false);
  }

  /** The factory for a system with a second basis. */
  method GetSharedInstanceTwoBasis(kernelName: string, pv: nat) returns (r: Result<Balancer, string>)
    ensures r.Success? <==> ToUpper(kernelName) in {DefaultName, ReplicatedName, PetiteName, FillInName}
    ensures r.Success? ==> r.value.padValue == pv && r.value.twoBasis
    ensures r.Success? ==> (r.value.kernel == ReplicatedFillIn <==> ToUpper(kernelName) == FillInName)
    ensures r.Failure? ==> r.error == NotRecognized + ToUpper(kernelName)
  {
    r := Select(kernelName, pv, true);
  }

  // ---------------------------------------------------------------------------
  // Properties of name resolution

  /** The two overloads accept the same names, select the same kernel and
      fail with the same message; they differ only in the second basis. */
  lemma OverloadsAgree(name: string, pv: nat)
    ensures Instance(name, pv, false).Success? <==> Instance(name, pv, true).Success?
    ensures Instance(name, pv, false).Success? ==>
      Instance(name, pv, true).value == Instance(name, pv, false).value.(twoBasis := true)
    ensures Instance(name, pv, false).Failure? ==> Instance(name, pv, false).error == Instance(name, pv, true).error
  {
  }

  /** Upper-casing twice is upper-casing once. */
  lemma ToUpperIdempotent(s: string)
    ensures ToUpper(ToUpper(s)) == ToUpper(s)
  {
  }

  /** Matching ignores letter case: names that agree up to the case of
      their letters resolve alike. */
  lemma ResolveIgnoresCase(a: string, b: string)
    requires |a| == |b|
    requires forall i | 0 <= i < |a| :: UpperChar(a[i]) == UpperChar(b[i])
    ensures ResolveKernel(a) == ResolveKernel(b)
  {
    assert ToUpper(a) == ToUpper(b);
  }

  /** The name the factory uses for a kernel. */
  function KernelName(k: Kernel): string {
    match k
    case ReplicatedPetite => PetiteName
    case ReplicatedFillIn => FillInName
  }

  lemma UpperFixed(s: string)
    requires forall i | 0 <= i < |s| :: !IsLower(s[i])
    ensures ToUpper(s) == s
  {
  }

  /** Resolving the name of a resolved kernel gives that kernel back, and
      resolving an already resolved name changes nothing. */
  lemma ResolveIdempotent(name: string)
    ensures forall k :: ResolveKernel(KernelName(k)) == Success(k)
    ensures ResolveKernel(name).Success? ==> ResolveKernel(CanonicalName(name)) == ResolveKernel(name)
  {
    UpperFixed(PetiteName);
    UpperFixed(FillInName);
    UpperFixed(DefaultName);
    UpperFixed(ReplicatedName);
  }
}
