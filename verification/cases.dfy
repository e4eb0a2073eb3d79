/** The three template cases a session can be primed with, and the lookup by id
    that the case selector performs. */
module Cases {
  import opened Wrappers
  import opened Types

  const Case001: Patient := Patient(Id001, Name001, 58, Male, Symptoms001, History001, Vitals(105.0, "155/95", 37.1, 94.0))
  const Id001 := "CASE-001"
  const Name001 := "Robert Miller"
  const Symptoms001: seq<string> := ["Substernal chest pressure", "Shortness of breath", "Nausea", "Diaphoresis"]
  const History001 :=
    "History of HTN, Type 2 DM, and tobacco use (30 pack-years). Complaining of sudden onset heavy pressure in the chest radiating to the left jaw for 45 minutes."

  const Case002: Patient := Patient(Id002, Name002, 24, Female, Symptoms002, History002, Vitals(112.0, "118/72", 37.4, 91.0))
  const Id002 := "CASE-002"
  const Name002 := "Sarah Chen"
  const Symptoms002: seq<string> := ["Pleuritic chest pain", "Tachycardia", "Anxiety"]
  const History002 :=
    "Recent long-haul flight (14 hours) 2 days ago. On oral contraceptive pills. Sudden onset sharp pain on deep inspiration."

  const Case003: Patient := Patient(Id003, Name003, 67, Female, Symptoms003, History003, Vitals(98.0, "92/58", 38.9, 96.0))
  const Id003 := "CASE-003"
  const Name003 := "Elena Rodriguez"
  const Symptoms003: seq<string> := ["Confusion", "Fever", "Dysuria", "Hypotension"]
  const History003 :=
    "Resident of skilled nursing facility. Baseline dementia. Caregivers noticed decreased oral intake and increased lethargy over the last 24 hours."

  /** The template library, in the order the selector lists it. */
  const MockPatients: seq<Patient> := [Case001, Case002, Case003]

  /** The first case of `ps` whose id is `id`, or None when no case has that id
      (the array `find` with an id-equality predicate). */
  function Find(ps: seq<Patient>, id: string): (r: Option<Patient>)
    ensures r.Some? ==> r.value in ps && r.value.id == id
    ensures r.None? <==> forall p :: p in ps ==> p.id != id
    ensures forall i :: 0 <= i < |ps| && ps[i].id == id && (forall j :: 0 <= j < i ==> ps[j].id != id) ==>
              r == Some(ps[i])
  {
    if |ps| == 0 then None
    else if ps[0].id == id then Some(ps[0])
    else
      var r := Find(ps[1..], id);
      assert forall i :: 1 <= i < |ps| ==> ps[i] == ps[1..][i - 1];
      r
  }

  /** Ids the selector offers under its template group. */
  predicate IsTemplateId(id: string) {
    Find(MockPatients, id).Some?
  }

  /** The template ids are pairwise distinct, so selecting a template's id finds that template. */
  lemma TemplatesFoundById()
    ensures forall i :: 0 <= i < |MockPatients| ==> Find(MockPatients, MockPatients[i].id) == Some(MockPatients[i])
  {
    assert Id001[7] != Id002[7] && Id001[7] != Id003[7] && Id002[7] != Id003[7];
  }

  /** Each template id finds its own template. */
  lemma TemplateLookups()
    ensures Find(MockPatients, Id001) == Some(Case001)
    ensures Find(MockPatients, Id002) == Some(Case002)
    ensures Find(MockPatients, Id003) == Some(Case003)
  {
    TemplatesFoundById();
  }

  /** An id that is none of the three template ids finds nothing. */
  lemma OtherIdsAreNotTemplates(id: string)
    requires id != Id001 && id != Id002 && id != Id003
    ensures Find(MockPatients, id) == None
  {
  }

  /** Every template id starts with an upper-case 'C'. */
  lemma TemplateIdsStartUpperCase(id: string)
    requires |id| > 0 && 'a' <= id[0] <= 'z'
    ensures id != Id001 && id != Id002 && id != Id003
  {
    assert Id001[0] == 'C' && Id002[0] == 'C' && Id003[0] == 'C';
  }

  /** No template id starts with a lower-case letter: ids such as "manual" and "manual-…"
      never name a template. */
  lemma LowerCaseIdsAreNotTemplates(id: string)
    requires |id| > 0 && 'a' <= id[0] <= 'z'
    ensures Find(MockPatients, id) == None
  {
    TemplateIdsStartUpperCase(id);
    OtherIdsAreNotTemplates(id);
  }
}
