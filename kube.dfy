/**
 * The pure helpers that turn a libpod container's settings into the
 * Kubernetes pod description printed by `podman generate kube`: the pod's
 * name and label, environment variables, port mappings and volume mounts.
 */
module Kube {
  import opened Wrappers
  import Text

  /** Why a conversion stopped. */
  datatype KubeError =
    | MalformedEnv(entry: string)          // "environment variable %s is malformed; should be key=value"
    | UnknownProtocol(protocol: string)    // "unknown network protocol %s"
    | MountSourceNotFound                  // "unable to find mount source"

  // ---------------------------------------------------------------- names

  /** removeUnderscores: every '_' deleted, every other character kept, in order. */
  function RemoveUnderscores(s: string): (r: string)
    ensures '_' !in r
    ensures multiset(r) == multiset(s)['_' := 0]
  {
    if s == [] then []
    else
      assert s == [s[0]] + s[1..];
      (if s[0] == '_' then [] else [s[0]]) + RemoveUnderscores(s[1..])
  }

  /** Deleting underscores piecewise is deleting them from the whole. */
  lemma {:induction false} RemoveUnderscoresConcat(a: string, b: string)
    ensures RemoveUnderscores(a + b) == RemoveUnderscores(a) + RemoveUnderscores(b)
  {
    if a == [] {
      assert a + b == b;
    } else {
      assert (a + b)[1..] == a[1..] + b;
      RemoveUnderscoresConcat(a[1..], b);
    }
  }

  /** A name without underscores is left as it is. */
  lemma {:induction false} RemoveUnderscoresKeepsClean(s: string)
    requires '_' !in s
    ensures RemoveUnderscores(s) == s
  {
    if s != [] {
      assert '_' !in s[1..];
      RemoveUnderscoresKeepsClean(s[1..]);
    }
  }

  /** Removing underscores twice is removing them once. */
  lemma RemoveUnderscoresIdempotent(s: string)
    ensures RemoveUnderscores(RemoveUnderscores(s)) == RemoveUnderscores(s)
  {
    RemoveUnderscoresKeepsClean(RemoveUnderscores(s));
  }

  datatype TypeMeta = TypeMeta(kind: string, apiVersion: string)
  datatype ObjectMeta = ObjectMeta(name: string, labels: map<string, string>)
  datatype Pod<C> = Pod(typeMeta: TypeMeta, objectMeta: ObjectMeta, containers: seq<C>)

  /**
   * simplePodWithV1Container: the container, once converted, is the pod's
   * only container; the pod is named after the container, without its
   * underscores and followed by "-libpod", and labelled app=<that name>.
   * A conversion error is returned as it is.
   */
  function SimplePod<C>(containerName: string, converted: Result<C, KubeError>): (r: Result<Pod<C>, KubeError>)
    ensures converted.Failure? ==> r == Failure(converted.error)
    ensures converted.Success? ==>
              && r.Success?
              && r.value.typeMeta == TypeMeta("Pod", "v1")
              && r.value.containers == [converted.value]
              && r.value.objectMeta.labels.Keys == {"app"}
              && r.value.objectMeta.name == r.value.objectMeta.labels["app"] + "-libpod"
              && r.value.objectMeta.labels["app"] == RemoveUnderscores(containerName)
  {
    match converted
    case Failure(e) => Failure(e)
    case Success(c) =>
      var app := RemoveUnderscores(containerName);
      Success(Pod(TypeMeta("Pod", "v1"), ObjectMeta(app + "-libpod", map["app" := app]), [c]))
  }

  /** Container names that differ only in underscores give the same pod name and label. */
  lemma SimplePodIgnoresUnderscores<C>(a: string, b: string, prefix: string, suffix: string, c: C)
    requires a == prefix + suffix && b == prefix + "_" + suffix
    ensures SimplePod(a, Success(c)) == SimplePod(b, Success(c))
  {
    assert b == (prefix + "_") + suffix;
    RemoveUnderscoresConcat(prefix + "_", suffix);
    RemoveUnderscoresConcat(prefix, "_");
    assert RemoveUnderscores("_") == [] by {
      assert "_"[1..] == [];
    }
    assert RemoveUnderscores(prefix + "_") == RemoveUnderscores(prefix);
    RemoveUnderscoresConcat(prefix, suffix);
    assert RemoveUnderscores(a) == RemoveUnderscores(b);
  }

  // ---------------------------------------------------------------- environment

  datatype EnvVar = EnvVar(name: string, value: string)

  /** One KEY=VALUE entry, split at its first '='; None when it has none. */
  function SplitEnv(entry: string): (r: Option<EnvVar>)
    ensures r.None? <==> '=' !in entry
    ensures r.Some? ==> '=' !in r.value.name && r.value.name + "=" + r.value.value == entry
  {
    match Text.Cut(entry, '=')
    case None => None
    case Some((name, value)) => Some(EnvVar(name, value))
  }

  /** The split is the only one whose name holds no '=': the value keeps any further '='. */
  lemma SplitEnvUnique(name: string, value: string)
    requires '=' !in name
    ensures SplitEnv(name + "=" + value) == Some(EnvVar(name, value))
  {
    var e := name + "=" + value;
    var r := SplitEnv(e);
    Text.CutUnique(r.value.name, r.value.value, name, value, '=');
  }

  /**
   * libpodEnvVarsToKubeEnvVars: entries are converted in order; the first
   * entry without '=' stops the conversion with an error naming it, and the
   * variables converted before it are returned with the error.
   */
  method EnvVarsToKube(envs: seq<string>) returns (vars: seq<EnvVar>, err: Option<KubeError>)
    ensures |vars| <= |envs|
    ensures forall i :: 0 <= i < |vars| ==> SplitEnv(envs[i]) == Some(vars[i])
    ensures err.None? ==> |vars| == |envs|
    ensures err.Some? ==> |vars| < |envs| && '=' !in envs[|vars|] && err == Some(MalformedEnv(envs[|vars|]))
  {
    vars := [];
    for k := 0 to |envs|
      invariant |vars| == k
      invariant forall i :: 0 <= i < k ==> SplitEnv(envs[i]) == Some(vars[i])
    {
      var splitE := SplitEnv(envs[k]);
      if splitE.None? {
        return vars, Some(MalformedEnv(envs[k]));
      }
      vars := vars + [splitE.value];
    }
    return vars, None;
  }

  // ---------------------------------------------------------------- ports

  datatype Protocol = TCP | UDP

  /** An ocicni port mapping. */
  datatype PortMapping = PortMapping(hostPort: int, containerPort: int, protocol: string, hostIP: string)

  /** A Kubernetes container port; its name is never set. */
  datatype ContainerPort = ContainerPort(hostPort: int, hostIP: string, containerPort: int, protocol: Protocol)

  /** Upper-casing of one character; only 'a'..'z' change. */
  function UpperChar(c: char): char
  {
    if 'a' <= c <= 'z' then (c as int - 32) as char else c
  }

  /** strings.ToUpper, character by character. */
  function ToUpper(s: string): (r: string)
    ensures |r| == |s| && forall i :: 0 <= i < |s| ==> r[i] == UpperChar(s[i])
  {
    if s == [] then [] else [UpperChar(s[0])] + ToUpper(s[1..])
  }

  /** `text` spells the upper-case `word` with each letter in either case. */
  predicate SpellsIgnoringCase(text: string, word: string)
  {
    |text| == |word| && forall i :: 0 <= i < |word| ==> text[i] == word[i] || text[i] as int == word[i] as int + 32
  }

  /** The protocol a mapping names: "tcp" or "udp" in any letter case. */
  function ParseProtocol(protocol: string): (r: Option<Protocol>)
    ensures r == Some(TCP) <==> SpellsIgnoringCase(protocol, "TCP")
    ensures r == Some(UDP) <==> SpellsIgnoringCase(protocol, "UDP")
    ensures r.None? <==> !SpellsIgnoringCase(protocol, "TCP") && !SpellsIgnoringCase(protocol, "UDP")
  {
    UpperMatches(protocol, "TCP");
    UpperMatches(protocol, "UDP");
    var upper := ToUpper(protocol);
    if upper == "TCP" then Some(TCP)
    else if upper == "UDP" then Some(UDP)
    else None
  }

  /** Upper-casing gives an upper-case word exactly when the text spells it in either case. */
  lemma UpperMatches(text: string, word: string)
    requires forall i :: 0 <= i < |word| ==> 'A' <= word[i] <= 'Z'
    ensures ToUpper(text) == word <==> SpellsIgnoringCase(text, word)
  {
    if SpellsIgnoringCase(text, word) {
      assert forall i :: 0 <= i < |word| ==> ToUpper(text)[i] == word[i];
    }
  }

  /**
   * ocicniPortMappingToContainerPort: mappings are converted in order, the
   * ports and host address copied and the protocol recognised; the first
   * unknown protocol stops the conversion with an error naming it, and the
   * ports converted before it are returned with the error.
   */
  method PortMappingsToContainerPorts(portMappings: seq<PortMapping>) returns (ports: seq<ContainerPort>, err: Option<KubeError>)
    ensures |ports| <= |portMappings|
    ensures forall i :: 0 <= i < |ports| ==>
              var p := portMappings[i];
              && ParseProtocol(p.protocol) == Some(ports[i].protocol)
              && ports[i] == ContainerPort(p.hostPort, p.hostIP, p.containerPort, ports[i].protocol)
    ensures err.None? ==> |ports| == |portMappings|
    ensures err.Some? ==>
              && |ports| < |portMappings|
              && ParseProtocol(portMappings[|ports|].protocol).None?
              && err == Some(UnknownProtocol(portMappings[|ports|].protocol))
  {
    ports := [];
    for k := 0 to |portMappings|
      invariant |ports| == k
      invariant forall i :: 0 <= i < k ==>
                  var p := portMappings[i];
                  && ParseProtocol(p.protocol) == Some(ports[i].protocol)
                  && ports[i] == ContainerPort(p.hostPort, p.hostIP, p.containerPort, ports[i].protocol)
    {
      var p := portMappings[k];
      var protocol := ParseProtocol(p.protocol);
      if protocol.None? {
        return ports, Some(UnknownProtocol(p.protocol));
      }
      ports := ports + [ContainerPort(p.hostPort, p.hostIP, p.containerPort, protocol.value)];
    }
    return ports, None;
  }

  // ---------------------------------------------------------------- volume mounts

  /** An OCI runtime mount. */
  datatype Mount = Mount(destination: string, source: string, options: seq<string>)

  /** A Kubernetes volume mount; its name is never set. */
  datatype VolumeMount = VolumeMount(name: string, readOnly: bool, mountPath: string, subPath: string)

  const EmptyVolumeMount := VolumeMount("", false, "", "")

  /** Index of the first mount whose source is `hostSourcePath`; |mounts| when none is. */
  function FirstMountFrom(hostSourcePath: string, mounts: seq<Mount>): (k: nat)
    ensures k <= |mounts|
    ensures forall j :: 0 <= j < k ==> mounts[j].source != hostSourcePath
    ensures k < |mounts| ==> mounts[k].source == hostSourcePath
  {
    if mounts == [] then 0
    else if mounts[0].source == hostSourcePath then 0
    else 1 + FirstMountFrom(hostSourcePath, mounts[1..])
  }

  /**
   * The volume mount a host path turns into: mounted at the source, the
   * destination as sub-path, read-only when "ro" is among the options, taken
   * from the first mount of that source; None when no mount has it.
   */
  function VolumeMountFor(hostSourcePath: string, mounts: seq<Mount>): (r: Option<VolumeMount>)
    ensures r.None? <==> forall m :: m in mounts ==> m.source != hostSourcePath
    ensures r.Some? ==> r.value.mountPath == hostSourcePath && r.value.name == ""
    ensures r.Some? ==>
              exists k :: 0 <= k < |mounts| && mounts[k].source == hostSourcePath
                          && (forall j :: 0 <= j < k ==> mounts[j].source != hostSourcePath)
                          && r.value.subPath == mounts[k].destination
                          && (r.value.readOnly <==> "ro" in mounts[k].options)
  {
    var k := FirstMountFrom(hostSourcePath, mounts);
    if k == |mounts| then None
    else
      var m := mounts[k];
      Some(VolumeMount("", "ro" in m.options, m.source, m.destination))
  }

  /** generateKubeVolumeMount: looks the host path up among the mounts, in order. */
  method GenerateKubeVolumeMount(hostSourcePath: string, mounts: seq<Mount>) returns (vm: VolumeMount, err: Option<KubeError>)
    ensures err.None? <==> VolumeMountFor(hostSourcePath, mounts).Some?
    ensures err.None? ==> vm == VolumeMountFor(hostSourcePath, mounts).value
    ensures err.Some? ==> vm == EmptyVolumeMount && err == Some(MountSourceNotFound)
  {
    vm := EmptyVolumeMount;
    for k := 0 to |mounts|
      invariant forall j :: 0 <= j < k ==> mounts[j].source != hostSourcePath
    {
      var m := mounts[k];
      if m.source == hostSourcePath {
        assert FirstMountFrom(hostSourcePath, mounts) == k;
        vm := vm.(mountPath := m.source, subPath := m.destination);
        if "ro" in m.options {
          vm := vm.(readOnly := true);
        }
        return vm, None;
      }
    }
    return vm, Some(MountSourceNotFound);
  }

  /**
   * libpodMountsToKubeVolumeMounts: one volume mount per user volume, in
   * order; the first volume no mount provides stops the conversion, and the
   * volume mounts built before it are returned with the error.
   */
  method MountsToKubeVolumeMounts(userVolumes: seq<string>, mounts: seq<Mount>) returns (vms: seq<VolumeMount>, err: Option<KubeError>)
    ensures |vms| <= |userVolumes|
    ensures forall i :: 0 <= i < |vms| ==> VolumeMountFor(userVolumes[i], mounts) == Some(vms[i])
    ensures err.None? ==> |vms| == |userVolumes|
    ensures err.Some? ==>
              && |vms| < |userVolumes|
              && VolumeMountFor(userVolumes[|vms|], mounts).None?
              && err == Some(MountSourceNotFound)
  {
    vms := [];
    for k := 0 to |userVolumes|
      invariant |vms| == k
      invariant forall i :: 0 <= i < k ==> VolumeMountFor(userVolumes[i], mounts) == Some(vms[i])
    {
      var vm, e := GenerateKubeVolumeMount(userVolumes[k], mounts);
      if e.Some? {
        return vms, e;
      }
      vms := vms + [vm];
    }
    return vms, None;
  }
}
