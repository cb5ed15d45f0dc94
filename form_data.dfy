/** The form-data service: a submitted form is stored with its project id
    and origin, without the `projectId` and `userId` keys of the form. */
module FormData {
  import opened Json

  /** A stored `formData` row; the timestamp is not modelled. */
  datatype FormRecord = FormRecord(formData: map<string, Json>, projectId: string, origin: string)

  /** The two keys dropped from the stored form. */
  const Dropped: set<string> := {"projectId", "userId"}

  /** The rest object of the destructuring in `createFormData`. */
  function Clean(formData: map<string, Json>): (r: map<string, Json>)
    ensures "projectId" !in r && "userId" !in r
    ensures forall k :: k in formData && k !in Dropped ==> k in r && r[k] == formData[k]
    ensures forall k :: k in r ==> k in formData
  {
    map k | k in formData && k !in Dropped :: formData[k]
  }

  /** `createFormData`: the project id and origin are the arguments, never
      keys of the form. */
  function CreateFormData(formData: map<string, Json>, projectId: string, origin: string): (r: FormRecord)
    ensures "projectId" !in r.formData && "userId" !in r.formData
    ensures r.projectId == projectId && r.origin == origin
    ensures r.formData == Clean(formData)
  {
    FormRecord(Clean(formData), projectId, origin)
  }

  /** Cleaning a cleaned form changes nothing, and a form without the two
      keys is stored whole. */
  lemma CleanIdempotent(formData: map<string, Json>)
    ensures Clean(Clean(formData)) == Clean(formData)
    ensures "projectId" !in formData && "userId" !in formData ==> Clean(formData) == formData
  {
    var c := Clean(formData);
    assert Clean(c).Keys == c.Keys;
    if "projectId" !in formData && "userId" !in formData {
      assert c.Keys == formData.Keys;
    }
  }

  /** The stored form does not depend on the ids a client put in the form. */
  lemma IdsInFormIgnored(formData: map<string, Json>, p: Json, u: Json)
    ensures Clean(formData["projectId" := p]["userId" := u]) == Clean(formData)
  {
    var a := Clean(formData["projectId" := p]["userId" := u]);
    assert a.Keys == Clean(formData).Keys;
  }
}
