/**
 * The static course catalog and the lookups over it.
 */
module Courses {
  import opened Wrappers
  import opened Types
  import opened Listing

  /** The five courses, in catalog order. */
  const Catalog: seq<Course> := [
    Course(
      "1", "introduction-to-react", "Introduction to React",
      "Learn the fundamentals of React, the most popular JavaScript library for building user interfaces.",
      "https://i.ytimg.com/vi/SqcY0GlETPk/hqdefault.jpg",
      [
        Lesson("1-1", "What is React?", "10:32", "SqcY0GlETPk", "https://bondipathshala.com.bd/pdf/react-lesson-1"),
        Lesson("1-2", "Setting Up Your Environment", "15:10", "9S6M2i_S8s", "https://bondipathshala.com.bd/pdf/react-lesson-2"),
        Lesson("1-3", "Components and Props", "25:45", "Y22c_3a_M_s", "https://bondipathshala.com.bd/pdf/react-lesson-3"),
        Lesson("1-4", "State and Lifecycle", "30:18", "O6P86uwfdR0", "https://bondipathshala.com.bd/pdf/react-lesson-4")
      ]),
    Course(
      "2", "advanced-tailwind-css", "Advanced Tailwind CSS",
      "Go beyond the basics and learn advanced techniques for building beautiful, custom designs with Tailwind CSS.",
      "https://i.ytimg.com/vi/lCxcTsOHrjo/hqdefault.jpg",
      [
        Lesson("2-1", "Configuration Deep Dive", "22:05", "lCxcTsOHrjo", "https://bondipathshala.com.bd/pdf/tailwind-lesson-1"),
        Lesson("2-2", "JIT Compiler Explained", "18:30", "3xlK23tAnV4", "https://bondipathshala.com.bd/pdf/tailwind-lesson-2"),
        Lesson("2-3", "Plugins and Presets", "28:15", "BaxXa2oYf2Y", "https://bondipathshala.com.bd/pdf/tailwind-lesson-3"),
        Lesson("2-4", "Responsive Design Patterns", "24:50", "Qp2sE2_Uu_s", "https://bondipathshala.com.bd/pdf/tailwind-lesson-4")
      ]),
    Course(
      "3", "nextjs-for-beginners", "Next.js for Beginners",
      "Build powerful, server-rendered React applications with Next.js. Perfect for beginners looking to level up.",
      "https://i.ytimg.com/vi/1_6nK_How_c/hqdefault.jpg",
      [
        Lesson("3-1", "Why Next.js?", "12:40", "1_6nK_How_c", "https://bondipathshala.com.bd/pdf/nextjs-lesson-1"),
        Lesson("3-2", "Pages and Routing", "20:11", "h7a_s19-p4s", "https://bondipathshala.com.bd/pdf/nextjs-lesson-2"),
        Lesson("3-3", "Data Fetching", "35:00", "HplxluE_S8w", "https://bondipathshala.com.bd/pdf/nextjs-lesson-3"),
        Lesson("3-4", "API Routes", "19:55", "s_25s2r3s_Y", "https://bondipathshala.com.bd/pdf/nextjs-lesson-4")
      ]),
    Course(
      "4", "mastering-typescript", "Mastering TypeScript",
      "Add static typing to JavaScript to improve developer productivity and code quality.",
      "https://i.ytimg.com/vi/zQnBQ4tB3ZA/hqdefault.jpg",
      [
        Lesson("4-1", "Introduction to Types", "21:14", "zQnBQ4tB3ZA", "https://bondipathshala.com.bd/pdf/ts-lesson-1"),
        Lesson("4-2", "Interfaces and Generics", "28:40", "d56mG7DezGs", "https://bondipathshala.com.bd/pdf/ts-lesson-2"),
        Lesson("4-3", "Advanced Types", "32:22", "fN22fcn2zP0", "https://bondipathshala.com.bd/pdf/ts-lesson-3")
      ]),
    Course(
      "5", "your-custom-course", "Your Custom Course",
      "Add your own courses by editing src/lib/courses.ts. You just need a title, description, and a list of YouTube video IDs.",
      "https://placehold.co/160x90/60A5FA/FFFFFF.png",
      [
        Lesson("5-1", "Your First Lesson", "05:00", "dQw4w9WgXcQ", "https://bondipathshala.com.bd/pdf/custom-1"),
        Lesson("5-2", "Your Second Lesson", "10:00", "dQw4w9WgXcQ", "https://bondipathshala.com.bd/pdf/custom-2")
      ])
  ]

  /** `getCourses()`: the catalog itself, unchanged (the simulated latency is not modelled). */
  function GetCourses(): (courses: seq<Course>)
    ensures |courses| == 5
    ensures forall i :: 0 <= i < |courses| ==> courses[i] == Catalog[i]
  {
    Catalog
  }

  /** `Array.prototype.find` by slug: the first course in order whose slug matches. */
  function FindBySlug(courses: seq<Course>, slug: string): (r: Option<Course>)
    ensures r.None? <==> forall i :: 0 <= i < |courses| ==> courses[i].slug != slug
    ensures r.Some? ==> exists i :: 0 <= i < |courses| && courses[i] == r.value
                                    && r.value.slug == slug
                                    && forall j :: 0 <= j < i ==> courses[j].slug != slug
  {
    FindFirst(courses, (c: Course) => c.slug == slug)
  }

  /** `getCourseBySlug(slug)`: the catalog course with that slug, `None` for `undefined`. */
  function GetCourseBySlug(slug: string): (r: Option<Course>)
    ensures r.Some? ==> r.value.slug == slug && r.value in Catalog
    ensures r.None? <==> forall c :: c in Catalog ==> c.slug != slug
  {
    FindBySlug(GetCourses(), slug)
  }

  /** The decimal digits of a positive lesson number. */
  function DecimalString(n: nat): string
    decreases n
  {
    var digit := ['0', '1', '2', '3', '4', '5', '6', '7', '8', '9'][n % 10];
    if n < 10 then [digit] else DecimalString(n / 10) + [digit]
  }

  /** Course ids and slugs are pairwise distinct, so a slug names at most one course. */
  lemma CatalogIdsAndSlugsDistinct()
    ensures forall i, j :: 0 <= i < j < |Catalog| ==> Catalog[i].id != Catalog[j].id
    ensures forall i, j :: 0 <= i < j < |Catalog| ==> Catalog[i].slug != Catalog[j].slug
  {
  }

  /** Each lesson id is its course id followed by `-n`, n counting the lessons from 1. */
  lemma CatalogLessonIdsNumbered()
    ensures forall i, j :: 0 <= i < |Catalog| && 0 <= j < |Catalog[i].lessons| ==>
              Catalog[i].lessons[j].id == Catalog[i].id + "-" + DecimalString(j + 1)
  {
  }

  /** No two lessons of the catalog, in the same course or in different ones, share an id. */
  lemma CatalogLessonIdsUnique()
    ensures forall i, j, i', j' ::
              0 <= i < |Catalog| && 0 <= j < |Catalog[i].lessons| &&
              0 <= i' < |Catalog| && 0 <= j' < |Catalog[i'].lessons| && (i, j) != (i', j')
              ==> Catalog[i].lessons[j].id != Catalog[i'].lessons[j'].id
  {
  }

  /** Every catalog course is found by its own slug. */
  lemma LookupFindsEachCourse(i: nat)
    requires i < |Catalog|
    ensures GetCourseBySlug(Catalog[i].slug) == Some(Catalog[i])
  {
    CatalogIdsAndSlugsDistinct();
  }
}
