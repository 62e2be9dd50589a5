/** Local answers: which addresses a name is given. */
module Overrides {
  import opened Addresses

  datatype OverrideRule = OverrideRule(ipv4: seq<IpAddr>, ipv6: seq<IpAddr>)

  type OverrideMap = map<string, OverrideRule>

  const NO_ANSWERS := OverrideRule([], [])

  function RuleFor(overrides: OverrideMap, domain: string): OverrideRule {
    if domain in overrides then overrides[domain] else NO_ANSWERS
  }

  function Push<T(==)>(xs: seq<T>, x: T): seq<T> {
    if x in xs then xs else xs + [x]
  }

  function AddOverride(ip: IpAddr, domain: string, overrides: OverrideMap): OverrideMap {
    var rule := RuleFor(overrides, domain);
    overrides[domain := match ip
                        case V4(_) => rule.(ipv4 := Push(rule.ipv4, ip))
                        case V6(_) => rule.(ipv6 := Push(rule.ipv6, ip))]
  }

  /** `domain` is answered with `ip`. */
  predicate Answers(overrides: OverrideMap, domain: string, ip: IpAddr) {
    domain in overrides && ip in overrides[domain].ipv4 + overrides[domain].ipv6
  }

  function AddOverrides(ip: IpAddr, domains: seq<string>, overrides: OverrideMap): OverrideMap
    decreases domains
  {
    if domains == [] then overrides else AddOverrides(ip, domains[1..], AddOverride(ip, domains[0], overrides))
  }

  lemma AddOverrideAnswers(ip: IpAddr, domain: string, overrides: OverrideMap, name: string, other: IpAddr)
    ensures Answers(AddOverride(ip, domain, overrides), name, other) <==>
            Answers(overrides, name, other) || (name == domain && other == ip)
  {}

  lemma {:induction false} AddOverridesAnswers(ip: IpAddr, domains: seq<string>, overrides: OverrideMap,
                                               name: string, other: IpAddr)
    ensures Answers(AddOverrides(ip, domains, overrides), name, other) <==>
            Answers(overrides, name, other) || (name in domains && other == ip)
    decreases domains
  {
    if domains != [] {
      AddOverridesAnswers(ip, domains[1..], AddOverride(ip, domains[0], overrides), name, other);
      AddOverrideAnswers(ip, domains[0], overrides, name, other);
    }
  }
}
