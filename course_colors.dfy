/** The static course data of src/data/cursos.ts: a colour per course
    name, the lookup with its grey fallback, and a student's course list
    coloured through that table. */
module CourseColors {

  const CursosColores: map<string, string> := map[
    "Matem\U{00E1}ticas" := "blue",
    "Comunicaci\U{00F3}n" := "green",
    "Ciencias" := "purple",
    "Historia" := "orange",
    "Ingl\U{00E9}s" := "pink",
    "Arte" := "yellow",
    "Educaci\U{00F3}n F\U{00ED}sica" := "red",
    "Tutor\U{00ED}a" := "indigo"
  ]

  const Fallback := "gray"

  /** `cursosColores[nombre] || 'gray'`: the table's colour, or grey when
      the name is not in the table (or maps to the empty string). */
  function GetCursoColor(nombre: string): (color: string)
    ensures nombre !in CursosColores ==> color == Fallback
    ensures color != Fallback ==> nombre in CursosColores && color == CursosColores[nombre]
  {
    if nombre in CursosColores && CursosColores[nombre] != "" then CursosColores[nombre] else Fallback
  }

  /** Every name in the table gets the table's colour, and none of them
      comes out grey. */
  lemma TableColors()
    ensures forall nombre :: nombre in CursosColores ==> GetCursoColor(nombre) == CursosColores[nombre]
    ensures forall nombre :: nombre in CursosColores ==> GetCursoColor(nombre) != Fallback
  {
    forall nombre | nombre in CursosColores ensures CursosColores[nombre] != "" && CursosColores[nombre] != Fallback {
      ColorValues(nombre);
    }
  }

  /** The table holds eight colours, none empty and none grey. */
  lemma ColorValues(nombre: string)
    requires nombre in CursosColores
    ensures CursosColores[nombre] in {"blue", "green", "purple", "orange", "pink", "yellow", "red", "indigo"}
  {
  }

  datatype Curso = Curso(id: int, nombre: string, profesor: string, horario: string, color: string)

  const CursosAlumno: seq<Curso> := [
    Curso(1, "Matem\U{00E1}ticas", "Profesora Rivera", "Lunes y Mi\U{00E9}rcoles 8:00 AM - 10:00 AM", CursosColores["Matem\U{00E1}ticas"]),
    Curso(2, "Comunicaci\U{00F3}n", "Profesora Torres", "Martes y Jueves 8:00 AM - 10:00 AM", CursosColores["Comunicaci\U{00F3}n"]),
    Curso(3, "Ciencias", "Profesor G\U{00F3}mez", "Lunes y Mi\U{00E9}rcoles 10:30 AM - 12:30 PM", CursosColores["Ciencias"]),
    Curso(4, "Historia", "Profesora Ruiz", "Martes y Jueves 10:30 AM - 12:30 PM", CursosColores["Historia"]),
    Curso(5, "Ingl\U{00E9}s", "Profesora Lee", "Viernes 8:00 AM - 11:00 AM", CursosColores["Ingl\U{00E9}s"]),
    Curso(6, "Arte", "Profesora D\U{00ED}az", "Lunes y Jueves 1:00 PM - 3:00 PM", CursosColores["Arte"]),
    Curso(7, "Educaci\U{00F3}n F\U{00ED}sica", "Profesor Soto", "Viernes 2:00 PM - 4:00 PM", CursosColores["Educaci\U{00F3}n F\U{00ED}sica"])
  ]

  /** The student's courses are numbered 1 to 7 in order, so their ids
      are distinct, and each one's colour is what the lookup gives for its
      name. */
  lemma CursosAlumnoTable()
    ensures |CursosAlumno| == 7
    ensures forall i :: 0 <= i < |CursosAlumno| ==> CursosAlumno[i].id == i + 1
    ensures forall i, j :: 0 <= i < j < |CursosAlumno| ==> CursosAlumno[i].id != CursosAlumno[j].id
    ensures forall i :: 0 <= i < |CursosAlumno| ==> CursosAlumno[i].nombre in CursosColores
    ensures forall i :: 0 <= i < |CursosAlumno| ==> CursosAlumno[i].color == GetCursoColor(CursosAlumno[i].nombre)
  {
    TableColors();
  }
}
