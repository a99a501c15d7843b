/** The publication store of src/context/PublicationsContext.tsx: new
    publications go first, deletion is by id, and a role-based filter
    decides what each user is shown. */
module Publications {
  import opened Wrappers
  import opened Domain
  import opened Lists
  import opened Storage

  /** The bundled default publications, used when nothing is stored. */
  const InitialPublications: seq<Publication> := [
    Publication("p1", "Inicio del A\U{00F1}o Escolar 2025",
      "Les recordamos que el inicio de clases ser\U{00E1} el 15 de enero del 2025. Por favor, estar atentos a las pr\U{00F3}ximas comunicaciones.",
      "2025-10-25", "3", "Carlos P\U{00E9}rez", Administrativo, All, None),
    Publication("p2", "Inscripciones Abiertas",
      "Las inscripciones para el nuevo a\U{00F1}o escolar est\U{00E1}n abiertas. Pueden realizarlas a trav\U{00E9}s del m\U{00F3}dulo de Matr\U{00ED}cula Web.",
      "2025-11-01", "3", "Carlos P\U{00E9}rez", Administrativo, All, None),
    Publication("p3", "Tarea de Matem\U{00E1}ticas - Semana 10",
      "Estimados alumnos, para la pr\U{00F3}xima semana deben completar los ejercicios de las p\U{00E1}ginas 45 a 50 del libro de texto. No olviden revisar los ejemplos que trabajamos en clase.",
      "2025-11-15", "2", "Profesora Rivera", Profesor, Students, Some(["c1"])),
    Publication("p4", "Reuni\U{00F3}n de Padres de Familia",
      "Se convoca a todos los padres de familia a la reuni\U{00F3}n general que se realizar\U{00E1} el d\U{00ED}a viernes 29 de noviembre a las 6:00 PM en el auditorio del colegio. Es de suma importancia su asistencia.",
      "2025-11-20", "3", "Carlos P\U{00E9}rez", Administrativo, All, None)
  ]

  /** The publication `addPublication` builds: the draft with a stamped id. */
  function NewPublication(d: PublicationDraft, now: Timestamp): (p: Publication)
    ensures p.id == Stamp("p", now)
    ensures p.title == d.title && p.content == d.content && p.date == d.date
    ensures p.authorId == d.authorId && p.authorName == d.authorName && p.authorType == d.authorType
    ensures p.targetAudience == d.targetAudience && p.targetCourses == d.targetCourses
  {
    Publication(Stamp("p", now), d.title, d.content, d.date, d.authorId, d.authorName,
                d.authorType, d.targetAudience, d.targetCourses)
  }

  /** The publications whose id differs, in their order. */
  function WithoutPublication(pubs: seq<Publication>, id: string): seq<Publication>
  {
    Filter(pubs, (p: Publication) => p.id != id)
  }

  /** Deleting removes every publication with that id, keeps the others in
      their order, each as often as it occurred, and deleting again
      changes nothing. */
  lemma DeletePublicationSpec(pubs: seq<Publication>, id: string)
    ensures var r := WithoutPublication(pubs, id);
            && (forall p :: p in r ==> p.id != id && p in pubs)
            && (forall p :: p in pubs && p.id != id ==> p in r)
            && IsSubseq(r, pubs)
            && |r| == |pubs| - Count(pubs, (p: Publication) => p.id == id)
            && WithoutPublication(r, id) == r
  {
    var r := WithoutPublication(pubs, id);
    FilterIsSubseq(pubs, (p: Publication) => p.id != id);
    FilterComplement(pubs, (p: Publication) => p.id == id, (p: Publication) => p.id != id);
    FilterAll(r, (p: Publication) => p.id != id);
  }

  /** The ids of the courses whose roster holds the student id derived
      from the user id. */
  function StudentCourseIds(courses: seq<Course>, userId: string): (ids: seq<string>)
    ensures forall x :: x in ids <==> exists c :: c in courses && Enrolls(c, StudentIdOf(userId)) && c.id == x
  {
    var mine := Filter(courses, (c: Course) => Enrolls(c, StudentIdOf(userId)));
    var ids := seq(|mine|, i requires 0 <= i < |mine| => mine[i].id);
    assert forall c :: c in mine ==> c.id in ids by {
      forall c | c in mine ensures c.id in ids {
        var i :| 0 <= i < |mine| && mine[i] == c;
        assert ids[i] == c.id;
      }
    }
    ids
  }

  /** Some course the publication targets is among `ids`. An absent list
      of target courses targets nothing. */
  predicate TargetsAny(p: Publication, ids: seq<string>) {
    match p.targetCourses
    case None => false
    case Some(tc) => exists k :: 0 <= k < |tc| && tc[k] in ids
  }

  /** What `getPublicationsForUser` returns. Administrative users get the
      list as it is; teachers get the general publications and their own;
      students get the general ones and those aimed at a course whose
      roster, in the stored course snapshot (none stored: no courses),
      holds their derived student id. */
  function PublicationsForUser(pubs: seq<Publication>, userId: string, role: UserType,
                               stored: Option<seq<Course>>): seq<Publication>
  {
    match role
    case Administrativo => pubs
    case Profesor => Filter(pubs, (p: Publication) => p.targetAudience == All || p.authorId == userId)
    case Alumno =>
      var ids := StudentCourseIds(stored.GetOr([]), userId);
      Filter(pubs, (p: Publication) => p.targetAudience == All || (p.targetAudience == Students && TargetsAny(p, ids)))
  }

  /** An administrative user is shown the whole list, unchanged. */
  lemma AdminSeesAll(pubs: seq<Publication>, userId: string, stored: Option<seq<Course>>)
    ensures PublicationsForUser(pubs, userId, Administrativo, stored) == pubs
  {
  }

  /** A teacher is shown a publication exactly when it is general or the
      teacher wrote it. */
  lemma TeacherSees(pubs: seq<Publication>, userId: string, stored: Option<seq<Course>>, p: Publication)
    requires p in pubs
    ensures p in PublicationsForUser(pubs, userId, Profesor, stored) <==> p.targetAudience == All || p.authorId == userId
  {
    var i :| 0 <= i < |pubs| && pubs[i] == p;
  }

  /** A student is shown a publication exactly when it is general, or it
      is aimed at students and one of its target courses is, in the stored
      snapshot, a course whose roster holds the student's derived id. */
  lemma StudentSees(pubs: seq<Publication>, userId: string, stored: Option<seq<Course>>, p: Publication)
    requires p in pubs
    ensures p in PublicationsForUser(pubs, userId, Alumno, stored) <==>
              || p.targetAudience == All
              || (&& p.targetAudience == Students
                  && p.targetCourses.Some?
                  && exists k, c :: 0 <= k < |p.targetCourses.value| && c in stored.GetOr([])
                                   && Enrolls(c, StudentIdOf(userId)) && c.id == p.targetCourses.value[k])
  {
    var i :| 0 <= i < |pubs| && pubs[i] == p;
    var ids := StudentCourseIds(stored.GetOr([]), userId);
    if p.targetAudience == Students && p.targetCourses.Some? {
      var tc := p.targetCourses.value;
      if TargetsAny(p, ids) {
        var k :| 0 <= k < |tc| && tc[k] in ids;
        var c :| c in stored.GetOr([]) && Enrolls(c, StudentIdOf(userId)) && c.id == tc[k];
      }
    }
  }

  /** A publication aimed at students with no target course is never
      shown to a student. */
  lemma UntargetedHiddenFromStudents(pubs: seq<Publication>, userId: string, stored: Option<seq<Course>>,
                                     p: Publication)
    requires p in pubs && p.targetAudience == Students
    requires p.targetCourses == None || p.targetCourses == Some([])
    ensures p !in PublicationsForUser(pubs, userId, Alumno, stored)
  {
    StudentSees(pubs, userId, stored, p);
  }

  /** Whatever the role, the result keeps publications of the list in
      their order, and every general publication is in it. */
  lemma VisibleIsSubseqAndGeneralShown(pubs: seq<Publication>, userId: string, role: UserType,
                                       stored: Option<seq<Course>>)
    ensures IsSubseq(PublicationsForUser(pubs, userId, role, stored), pubs)
    ensures forall p :: p in pubs && p.targetAudience == All ==> p in PublicationsForUser(pubs, userId, role, stored)
  {
    match role
    case Administrativo => SubseqRefl(pubs);
    case Profesor => FilterIsSubseq(pubs, (p: Publication) => p.targetAudience == All || p.authorId == userId);
    case Alumno =>
      var ids := StudentCourseIds(stored.GetOr([]), userId);
      FilterIsSubseq(pubs, (p: Publication) => p.targetAudience == All || (p.targetAudience == Students && TargetsAny(p, ids)));
  }

  /** With no course snapshot stored, a student is shown exactly the
      general publications. */
  lemma NoSnapshotOnlyGeneral(pubs: seq<Publication>, userId: string)
    ensures PublicationsForUser(pubs, userId, Alumno, None) == Filter(pubs, (p: Publication) => p.targetAudience == All)
  {
    var ids := StudentCourseIds([], userId);
    assert ids == [];
    FilterExt(pubs, (p: Publication) => p.targetAudience == All || (p.targetAudience == Students && TargetsAny(p, ids)),
                    (p: Publication) => p.targetAudience == All);
  }

  /** A student with derived id "s7" enrolled only in course "c2" is
      shown a publication aimed at "c2" and not one aimed at "c5". */
  lemma EnrolledCourseScenario(c2: Course, atC2: Publication, atC5: Publication)
    requires c2.id == "c2" && Enrolls(c2, "s7")
    requires atC2.targetAudience == Students && atC2.targetCourses == Some(["c2"])
    requires atC5.targetAudience == Students && atC5.targetCourses == Some(["c5"])
    ensures var shown := PublicationsForUser([atC2, atC5], "7", Alumno, Some([c2]));
            atC2 in shown && atC5 !in shown
  {
    assert StudentIdOf("7") == "s7";
    assert atC2.targetCourses.value[0] == c2.id && c2 in Some([c2]).GetOr([]);
    StudentSees([atC2, atC5], "7", Some([c2]), atC2);
    StudentSees([atC2, atC5], "7", Some([c2]), atC5);
  }

  class PublicationStore {
    var publications: seq<Publication>
    const storage: LocalStorage

    /** Loads the list from storage, or the bundled defaults. */
    constructor (storage: LocalStorage)
      ensures this.storage == storage
      ensures publications == (if PublicationsKey in storage.slots && storage.slots[PublicationsKey].PublicationsDoc?
                               then storage.slots[PublicationsKey].publications else InitialPublications)
    {
      this.storage := storage;
      publications := if PublicationsKey in storage.slots && storage.slots[PublicationsKey].PublicationsDoc?
                      then storage.slots[PublicationsKey].publications else InitialPublications;
    }

    /** The new publication goes first, ahead of the old list. */
    method AddPublication(draft: PublicationDraft, now: Timestamp)
      modifies this, storage
      ensures |publications| == |old(publications)| + 1
      ensures publications[0] == NewPublication(draft, now) && publications[1..] == old(publications)
      ensures storage.slots == old(storage.slots)[PublicationsKey := PublicationsDoc(publications)]
    {
      var updated := [NewPublication(draft, now)] + publications;
      publications := updated;
      storage.SetItem(PublicationsKey, PublicationsDoc(updated));
    }

    method DeletePublication(id: string)
      modifies this, storage
      ensures publications == WithoutPublication(old(publications), id)
      ensures storage.slots == old(storage.slots)[PublicationsKey := PublicationsDoc(publications)]
    {
      var updated := WithoutPublication(publications, id);
      publications := updated;
      storage.SetItem(PublicationsKey, PublicationsDoc(updated));
    }

    /** The student view reads the course list stored under 'courses', not
        the course store's in-memory list. */
    function GetPublicationsForUser(userId: string, role: UserType): seq<Publication>
      reads this, storage
    {
      PublicationsForUser(publications, userId, role, StoredCourses(storage.slots))
    }
  }
}
