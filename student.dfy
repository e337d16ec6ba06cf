/**
 * The student record as the listing and refresh endpoints send it to the
 * browser (the `Student` table of the backend plus its row id).
 */
module Records {
  import opened Text

  /** Metrics are `null` until the first scrape. */
  datatype Student = Student(
    id: int,
    name: string,
    rollNumber: string,
    leetcodeUrl: string,
    hackerrankUrl: string,
    leetcodeSolved: Option<int>,
    javaStars: Option<int>,
    pythonStars: Option<int>,
    cStars: Option<int>,
    sqlStars: Option<int>,
    lastFetched: Option<string>)

  /** The ids of a roster, in roster order. */
  function Ids(students: seq<Student>): (ids: seq<int>)
    ensures |ids| == |students|
    ensures forall i :: 0 <= i < |ids| ==> ids[i] == students[i].id
  {
    if students == [] then [] else [students[0].id] + Ids(students[1..])
  }

  lemma IdsAppend(a: seq<Student>, b: seq<Student>)
    ensures Ids(a + b) == Ids(a) + Ids(b)
  {
    assert |Ids(a + b)| == |Ids(a) + Ids(b)|;
    forall i | 0 <= i < |a + b| ensures Ids(a + b)[i] == (Ids(a) + Ids(b))[i] {
      if i < |a| { assert (a + b)[i] == a[i]; } else { assert (a + b)[i] == b[i - |a|]; }
    }
  }
}
